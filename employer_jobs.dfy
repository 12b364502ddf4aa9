/**
 * /api/employer/jobs: an employer's own postings, newest first, each with
 * its number of applications (GET), and the creation of an ACTIVE posting
 * (POST). Both trust the token's role claim.
 */
module EmployerJobsRoute {
  import opened Common
  import opened Collections
  import opened Sorting
  import opened Entities
  import opened Auth
  import opened Http
  import opened Requests
  import opened Store

  /** One entry of the GET answer. */
  datatype JobSummary = JobSummary(
    id: Id, title: string, company: string, location: string, deadline: int, status: JobStatus, applications: nat)

  /** The condition of `where: { adminId }`. */
  function OwnedBy(ownerId: Id): Job -> bool {
    (j: Job) => j.adminId == ownerId
  }

  /** The condition of an application referencing job `jobId`. */
  function OnJob(jobId: Id): Application -> bool {
    (a: Application) => a.jobPostingId == jobId
  }

  /** The employer's postings, newest first. */
  function OwnedJobsNewestFirst(jobs: seq<Job>, ownerId: Id): (r: seq<Job>)
    ensures SortedDesc(r, JobCreatedAt)
    ensures multiset(r) == multiset(Filter(jobs, OwnedBy(ownerId)))
  {
    SortByKeyDesc(Filter(jobs, OwnedBy(ownerId)), JobCreatedAt)
  }

  /** `jobs.map(...)` with `_count.applications`. */
  function Summarize(j: Job, apps: seq<Application>): (s: JobSummary)
    ensures s.id == j.id && s.title == j.title && s.company == j.company && s.location == j.location
    ensures s.status == j.status && s.deadline == j.deadline
    ensures s.applications == Count(apps, OnJob(j.id))
  {
    JobSummary(j.id, j.title, j.company, j.location, j.deadline, j.status, Count(apps, OnJob(j.id)))
  }

  /** GET: 401 without a session, 403 unless the role claim is EMPLOYER, otherwise the employer's postings. */
  function Get(t: Tables, req: Incoming): (r: Reply<seq<JobSummary>>)
    ensures r.Ok? <==> EmployerCaller(RequestUser(req)).Pass?
    ensures r.Fail? <==> !r.Ok?
    ensures r.Fail? ==> EmployerCaller(RequestUser(req)) == Deny(r.error)
    ensures r.Ok? ==>
      var owned := OwnedJobsNewestFirst(t.jobs, EmployerCaller(RequestUser(req)).value);
      |r.value| == |owned| && forall i :: 0 <= i < |owned| ==> r.value[i] == Summarize(owned[i], t.applications)
  {
    match EmployerCaller(RequestUser(req))
    case Deny(e) => Fail(e)
    case Pass(uid) =>
      var owned := OwnedJobsNewestFirst(t.jobs, uid);
      Ok(seq(|owned|, i requires 0 <= i < |owned| => Summarize(owned[i], t.applications)))
  }

  /** The GET answer lists exactly the postings whose adminId is the caller, and only those. */
  lemma GetListsExactlyOwnedJobs(t: Tables, req: Incoming, uid: Id)
    requires EmployerCaller(RequestUser(req)) == Pass(uid)
    ensures var owned := OwnedJobsNewestFirst(t.jobs, uid);
      && (forall j :: j in owned ==> j in t.jobs && j.adminId == uid)
      && (forall j :: j in t.jobs && j.adminId == uid ==> j in owned)
  {
    var f := Filter(t.jobs, OwnedBy(uid));
    var owned := OwnedJobsNewestFirst(t.jobs, uid);
    forall j | j in owned ensures j in t.jobs && j.adminId == uid {
      assert j in multiset(owned);
      assert j in multiset(f);
    }
    forall j | j in t.jobs && j.adminId == uid ensures j in owned {
      assert OwnedBy(uid)(j);
      assert j in f;
      assert j in multiset(f);
    }
  }

  /** In a consistent store each entry's count is the number of applications referencing that posting. */
  lemma SummaryCountsApplications(t: Tables, j: Job)
    requires WellFormed(t)
    ensures Summarize(j, t.applications).applications == |set a | a in t.applications && a.jobPostingId == j.id|
  {
    ApplicationsDistinct(t.applications);
    CountIsCardinality(t.applications, OnJob(j.id));
    assert Matching(t.applications, OnJob(j.id)) == set a | a in t.applications && a.jobPostingId == j.id;
  }

  /** The JSON body of a job creation request; every field may be absent. */
  datatype JobForm = JobForm(
    title: Option<string>, company: Option<string>, location: Option<string>, salary: Option<string>,
    description: Option<string>, requirements: Option<string>, responsibilities: Option<string>,
    benefits: Option<string>, employmentType: Option<string>, mbtiTypes: Option<string>, deadline: Option<string>)

  /** Title, company, location, description, requirements and deadline are all present and non-empty. */
  predicate HasRequiredFields(f: JobForm) {
    Truthy(f.title) && Truthy(f.company) && Truthy(f.location)
    && Truthy(f.description) && Truthy(f.requirements) && Truthy(f.deadline)
  }

  /** The row a successful creation inserts: ACTIVE, owned by the caller. */
  function NewJob(id: Id, f: JobForm, deadline: int, ownerId: Id, now: int): (j: Job)
    requires HasRequiredFields(f)
    ensures j.id == id && j.status == Active && j.adminId == ownerId && j.createdAt == now && j.deadline == deadline
    ensures Some(j.title) == f.title && Some(j.company) == f.company && Some(j.location) == f.location
    ensures Some(j.description) == f.description && Some(j.requirements) == f.requirements
    ensures j.salary == f.salary && j.responsibilities == f.responsibilities && j.benefits == f.benefits
    ensures j.employmentType == f.employmentType && j.mbtiTypes == f.mbtiTypes
  {
    Job(id, f.title.value, f.company.value, f.location.value, f.salary, f.description.value,
        f.requirements.value, f.responsibilities, f.benefits, f.employmentType, f.mbtiTypes,
        deadline, Active, ownerId, now)
  }

  /**
   * POST, as a function of the store: the employer guard, 400 for a missing
   * required field, 400 for a deadline the date parser rejects, otherwise
   * 201 with the new posting.
   */
  function CreateJob(t: Tables, req: Incoming, f: JobForm, parseDate: string -> Option<int>, now: int): (out: Step<Job>)
    ensures out.reply.Created? <==>
      EmployerCaller(RequestUser(req)).Pass? && HasRequiredFields(f) && parseDate(f.deadline.value).Some?
    ensures EmployerCaller(RequestUser(req)).Deny? ==> out == Step(Fail(EmployerCaller(RequestUser(req)).error), t)
    ensures !out.reply.Created? ==> out.reply.Fail? && out.tables == t
    ensures out.reply.Fail? && EmployerCaller(RequestUser(req)).Pass? ==>
      out.reply.error in {BadRequest(MissingRequiredFields), BadRequest(InvalidDeadline)}
    ensures out.reply.Created? ==>
      && EmployerCaller(RequestUser(req)) == Pass(out.reply.value.adminId)
      && out.reply.value == NewJob(t.nextId, f, parseDate(f.deadline.value).value, out.reply.value.adminId, now)
      && out.reply.value.id == t.nextId
      && out.reply.value.status == Active
      && RequestUser(req).Some? && Some(out.reply.value.adminId) == RequestUser(req).value.id
      && out.tables == t.(jobs := t.jobs + [out.reply.value], nextId := t.nextId + 1)
  {
    match EmployerCaller(RequestUser(req))
    case Deny(e) => Step(Fail(e), t)
    case Pass(uid) =>
      if !HasRequiredFields(f) then Step(Fail(BadRequest(MissingRequiredFields)), t)
      else
        match parseDate(f.deadline.value)
        case None => Step(Fail(BadRequest(InvalidDeadline)), t)
        case Some(deadline) =>
          var job := NewJob(t.nextId, f, deadline, uid, now);
          Step(Created(job), t.(jobs := t.jobs + [job], nextId := t.nextId + 1))
  }

  /** POST: the handler, inserting the new posting. */
  method Post(db: Database, req: Incoming, f: JobForm, parseDate: string -> Option<int>, now: int)
    returns (r: Reply<Job>)
    requires db.Valid()
    modifies db
    ensures db.Valid()
    ensures Step(r, db.Tables()) == CreateJob(old(db.Tables()), req, f, parseDate, now)
  {
    var user := RequestUser(req);
    if user.None? {
      return Fail(NotAuthenticated);
    }
    if user.value.id.None? || user.value.role != Some("EMPLOYER") {
      return Fail(Forbidden);
    }
    if !HasRequiredFields(f) {
      return Fail(BadRequest(MissingRequiredFields));
    }
    var deadline := parseDate(f.deadline.value);
    if deadline.None? {
      return Fail(BadRequest(InvalidDeadline));
    }
    CreateJobPreservesWellFormed(db.Tables(), req, f, parseDate, now);
    var job := NewJob(db.nextId, f, deadline.value, user.value.id.value, now);
    db.jobs := db.jobs + [job];
    db.nextId := db.nextId + 1;
    r := Created(job);
  }

  /** A missing required field gives 400 and creates nothing, for any employer. */
  lemma MissingFieldRefused(t: Tables, req: Incoming, f: JobForm, parseDate: string -> Option<int>, now: int)
    requires EmployerCaller(RequestUser(req)).Pass?
    requires !HasRequiredFields(f)
    ensures CreateJob(t, req, f, parseDate, now) == Step(Fail(BadRequest(MissingRequiredFields)), t)
  {
  }

  /** An unparseable deadline gives 400 and creates nothing. */
  lemma UnparseableDeadlineRefused(t: Tables, req: Incoming, f: JobForm, parseDate: string -> Option<int>, now: int)
    requires EmployerCaller(RequestUser(req)).Pass?
    requires HasRequiredFields(f) && parseDate(f.deadline.value).None?
    ensures CreateJob(t, req, f, parseDate, now) == Step(Fail(BadRequest(InvalidDeadline)), t)
  {
  }

  /** Job creation keeps the store consistent. */
  lemma CreateJobPreservesWellFormed(t: Tables, req: Incoming, f: JobForm, parseDate: string -> Option<int>, now: int)
    requires WellFormed(t)
    ensures WellFormed(CreateJob(t, req, f, parseDate, now).tables)
  {
    var out := CreateJob(t, req, f, parseDate, now);
    if out.reply.Created? {
      var jobs := out.tables.jobs;
      forall i, j | 0 <= i < |jobs| && 0 <= j < |jobs| && i != j
        ensures jobs[i].id != jobs[j].id
      {
        if i < |t.jobs| && j < |t.jobs| {
        } else if i < |t.jobs| {
          assert jobs[i] in t.jobs;
        } else {
          assert jobs[j] in t.jobs;
        }
      }
    }
  }
}
