/**
 * The employer dashboard's two tallies: /api/employer/jobs/count (the
 * caller's ACTIVE postings) and /api/employer/applications/count (PENDING
 * applications on any of the caller's postings, whatever their status).
 */
module EmployerJobCountRoute {
  import opened Common
  import opened Collections
  import opened Entities
  import opened Http
  import opened Requests

  /** The condition of `where: { adminId, status: 'ACTIVE' }`. */
  function ActiveOwnedBy(ownerId: Id): Job -> bool {
    (j: Job) => j.adminId == ownerId && j.status == Active
  }

  /** GET: the employer guard, then the number of the caller's ACTIVE postings. */
  function Get(t: Tables, req: Incoming): (r: Reply<nat>)
    ensures r.Ok? <==> EmployerCaller(RequestUser(req)).Pass?
    ensures r.Fail? <==> !r.Ok?
    ensures r.Fail? ==> EmployerCaller(RequestUser(req)) == Deny(r.error)
    ensures r.Ok? ==> r.value <= |t.jobs|
    ensures r.Ok? && r.value > 0 ==>
      exists j :: j in t.jobs && Some(j.adminId) == RequestUser(req).value.id && j.status == Active
  {
    match EmployerCaller(RequestUser(req))
    case Deny(e) => Fail(e)
    case Pass(uid) => Ok(Count(t.jobs, ActiveOwnedBy(uid)))
  }

  /** In a consistent store the count is the size of the set of the caller's ACTIVE postings. */
  lemma CountIsActiveOwnedJobs(t: Tables, req: Incoming, uid: Id)
    requires WellFormed(t)
    requires EmployerCaller(RequestUser(req)) == Pass(uid)
    ensures Get(t, req) == Ok(|set j | j in t.jobs && j.adminId == uid && j.status == Active|)
  {
    JobsDistinct(t.jobs);
    CountIsCardinality(t.jobs, ActiveOwnedBy(uid));
    assert Matching(t.jobs, ActiveOwnedBy(uid)) == (set j | j in t.jobs && j.adminId == uid && j.status == Active);
  }
}

module EmployerApplicationCountRoute {
  import opened Common
  import opened Collections
  import opened Entities
  import opened Http
  import opened Requests

  /** `jobs.map(job => job.id)` over the caller's postings. */
  function OwnedJobIds(jobs: seq<Job>, ownerId: Id): (ids: seq<Id>)
    ensures forall id :: id in ids <==> exists j :: j in jobs && j.adminId == ownerId && j.id == id
  {
    if jobs == [] then []
    else (if jobs[0].adminId == ownerId then [jobs[0].id] else []) + OwnedJobIds(jobs[1..], ownerId)
  }

  /** The condition of `where: { jobPostingId: { in: jobIds }, status: 'PENDING' }`. */
  function PendingOn(jobIds: seq<Id>): Application -> bool {
    (a: Application) => a.jobPostingId in jobIds && a.status == Pending
  }

  /** GET: the employer guard, then the number of PENDING applications on the caller's postings. */
  function Get(t: Tables, req: Incoming): (r: Reply<nat>)
    ensures r.Ok? <==> EmployerCaller(RequestUser(req)).Pass?
    ensures r.Fail? <==> !r.Ok?
    ensures r.Fail? ==> EmployerCaller(RequestUser(req)) == Deny(r.error)
    ensures r.Ok? ==> r.value <= |t.applications|
  {
    match EmployerCaller(RequestUser(req))
    case Deny(e) => Fail(e)
    case Pass(uid) => Ok(Count(t.applications, PendingOn(OwnedJobIds(t.jobs, uid))))
  }

  /** The applications the tally counts: PENDING, on a posting of the caller's of any status. */
  ghost predicate CountedFor(t: Tables, uid: Id, a: Application) {
    a.status == Pending && exists j :: j in t.jobs && j.adminId == uid && j.id == a.jobPostingId
  }

  /** In a consistent store the count is the size of the set of PENDING applications on the caller's postings. */
  lemma CountIsPendingOnOwnedJobs(t: Tables, req: Incoming, uid: Id)
    requires WellFormed(t)
    requires EmployerCaller(RequestUser(req)) == Pass(uid)
    ensures Get(t, req) == Ok(|set a | a in t.applications && CountedFor(t, uid, a)|)
  {
    var ids := OwnedJobIds(t.jobs, uid);
    ApplicationsDistinct(t.applications);
    CountIsCardinality(t.applications, PendingOn(ids));
    assert Matching(t.applications, PendingOn(ids)) == (set a | a in t.applications && CountedFor(t, uid, a));
  }

  /** An employer who owns no posting always sees 0. */
  lemma NoJobsNoCount(t: Tables, req: Incoming, uid: Id)
    requires EmployerCaller(RequestUser(req)) == Pass(uid)
    requires forall j :: j in t.jobs ==> j.adminId != uid
    ensures Get(t, req) == Ok(0)
  {
  }
}
