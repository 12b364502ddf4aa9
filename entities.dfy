/**
 * The persistent entities of the portal (users, profiles, job postings,
 * applications), the closed label sets the routes validate against, the
 * store's lookups, and the invariant a consistent store keeps.
 */
module Entities {
  import opened Common
  import opened Collections

  /** Row identifiers. The store generates them; the model draws them from a counter. */
  type Id = nat

  datatype Role = Student | Employer | Admin
  datatype ApplicationStatus = Pending | Rejected | Interviewing | Accepted
  datatype JobStatus = Active | Inactive

  /** The register route's `validRoles`. */
  const ValidRoles: seq<string> := ["STUDENT", "EMPLOYER", "ADMIN"]
  /** The status route's `validStatuses`, in its order. */
  const ValidStatuses: seq<string> := ["PENDING", "REJECTED", "INTERVIEWING", "ACCEPTED"]

  function RoleLabel(r: Role): string {
    match r
    case Student => "STUDENT"
    case Employer => "EMPLOYER"
    case Admin => "ADMIN"
  }

  /** `validRoles.includes(s)`, returning the role it names. */
  function ParseRole(s: string): (r: Option<Role>)
    ensures r.Some? <==> s in ValidRoles
    ensures r.Some? ==> RoleLabel(r.value) == s
  {
    if s == "STUDENT" then Some(Student)
    else if s == "EMPLOYER" then Some(Employer)
    else if s == "ADMIN" then Some(Admin)
    else None
  }

  /** Every role's label is accepted and names that role again. */
  lemma RoleLabelRoundTrip(r: Role)
    ensures ParseRole(RoleLabel(r)) == Some(r)
  {
  }

  function StatusLabel(s: ApplicationStatus): string {
    match s
    case Pending => "PENDING"
    case Rejected => "REJECTED"
    case Interviewing => "INTERVIEWING"
    case Accepted => "ACCEPTED"
  }

  /** `validStatuses.includes(s)`, returning the status it names. */
  function ParseStatus(s: string): (r: Option<ApplicationStatus>)
    ensures r.Some? <==> s in ValidStatuses
    ensures r.Some? ==> StatusLabel(r.value) == s
  {
    if s == "PENDING" then Some(Pending)
    else if s == "REJECTED" then Some(Rejected)
    else if s == "INTERVIEWING" then Some(Interviewing)
    else if s == "ACCEPTED" then Some(Accepted)
    else None
  }

  /** Every status's label is accepted and names that status again. */
  lemma StatusLabelRoundTrip(s: ApplicationStatus)
    ensures ParseStatus(StatusLabel(s)) == Some(s)
  {
  }

  /** A user row; `password` holds the stored hash. */
  datatype User = User(id: Id, email: string, password: string, role: Role, createdAt: int)

  /** A profile row, one per user, keyed by `userId`. */
  datatype Profile = Profile(
    userId: Id,
    firstName: string,
    lastName: string,
    phone: Option<string>,
    mbtiType: Option<string>,
    mbtiCompleted: bool,
    resumeUrl: Option<string>,
    certificateUrl: Option<string>)

  /** A job posting row; `adminId` is the id of the employer who created it. */
  datatype Job = Job(
    id: Id,
    title: string,
    company: string,
    location: string,
    salary: Option<string>,
    description: string,
    requirements: string,
    responsibilities: Option<string>,
    benefits: Option<string>,
    employmentType: Option<string>,
    mbtiTypes: Option<string>,
    deadline: int,
    status: JobStatus,
    adminId: Id,
    createdAt: int)

  /** An application row. */
  datatype Application = Application(
    id: Id,
    userId: Id,
    jobPostingId: Id,
    status: ApplicationStatus,
    notes: Option<string>,
    createdAt: int,
    updatedAt: int)

  /** A snapshot of the whole store; `nextId` is the next identifier the store hands out. */
  datatype Tables = Tables(
    users: seq<User>,
    profiles: seq<Profile>,
    jobs: seq<Job>,
    applications: seq<Application>,
    nextId: Id)

  function UserCreatedAt(u: User): int { u.createdAt }
  function JobCreatedAt(j: Job): int { j.createdAt }
  function AppCreatedAt(a: Application): int { a.createdAt }

  // ---------------------------------------------------------------- lookups

  /** `user.findUnique({ where: { id } })`. */
  function UserById(users: seq<User>, id: Id): (r: Option<User>)
    ensures r.Some? ==> r.value in users && r.value.id == id
    ensures r.None? <==> (forall u :: u in users ==> u.id != id)
  {
    FindFirst(users, (u: User) => u.id == id)
  }

  /** `user.findUnique({ where: { email } })`. */
  function UserByEmail(users: seq<User>, email: string): (r: Option<User>)
    ensures r.Some? ==> r.value in users && r.value.email == email
    ensures r.None? <==> (forall u :: u in users ==> u.email != email)
  {
    FindFirst(users, (u: User) => u.email == email)
  }

  /** `profile.findUnique({ where: { userId } })`. */
  function ProfileOf(profiles: seq<Profile>, userId: Id): (r: Option<Profile>)
    ensures r.Some? ==> r.value in profiles && r.value.userId == userId
    ensures r.None? <==> (forall p :: p in profiles ==> p.userId != userId)
  {
    FindFirst(profiles, (p: Profile) => p.userId == userId)
  }

  /** A job that is still open at `now`: ACTIVE and its deadline not passed. */
  predicate IsOpen(j: Job, now: int) {
    j.status == Active && j.deadline >= now
  }

  /** `jobPosting.findUnique({ where: { id, status: 'ACTIVE', deadline: { gte: now } } })`. */
  function OpenJob(jobs: seq<Job>, id: Id, now: int): (r: Option<Job>)
    ensures r.Some? ==> r.value in jobs && r.value.id == id && IsOpen(r.value, now)
    ensures r.None? <==> (forall j :: j in jobs ==> !(j.id == id && IsOpen(j, now)))
  {
    FindFirst(jobs, (j: Job) => j.id == id && IsOpen(j, now))
  }

  /** `application.findUnique({ where: { id } })`. */
  function ApplicationById(apps: seq<Application>, id: Id): (r: Option<Application>)
    ensures r.Some? ==> r.value in apps && r.value.id == id
    ensures r.None? <==> (forall a :: a in apps ==> a.id != id)
  {
    FindFirst(apps, (a: Application) => a.id == id)
  }

  /** `application.findFirst({ where: { userId, jobPostingId } })`: the duplicate probe. */
  function ExistingApplication(apps: seq<Application>, userId: Id, jobId: Id): (r: Option<Application>)
    ensures r.Some? ==> r.value in apps && r.value.userId == userId && r.value.jobPostingId == jobId
    ensures r.None? <==> (forall a :: a in apps ==> !(a.userId == userId && a.jobPostingId == jobId))
  {
    FindFirst(apps, (a: Application) => a.userId == userId && a.jobPostingId == jobId)
  }

  // -------------------------------------------------------------- invariant

  ghost predicate UniqueUserIds(users: seq<User>) {
    forall i, j :: 0 <= i < |users| && 0 <= j < |users| && i != j ==> users[i].id != users[j].id
  }

  ghost predicate UniqueEmails(users: seq<User>) {
    forall i, j :: 0 <= i < |users| && 0 <= j < |users| && i != j ==> users[i].email != users[j].email
  }

  ghost predicate OneProfilePerUser(profiles: seq<Profile>) {
    forall i, j :: 0 <= i < |profiles| && 0 <= j < |profiles| && i != j ==> profiles[i].userId != profiles[j].userId
  }

  ghost predicate UniqueJobIds(jobs: seq<Job>) {
    forall i, j :: 0 <= i < |jobs| && 0 <= j < |jobs| && i != j ==> jobs[i].id != jobs[j].id
  }

  ghost predicate UniqueApplicationIds(apps: seq<Application>) {
    forall i, j :: 0 <= i < |apps| && 0 <= j < |apps| && i != j ==> apps[i].id != apps[j].id
  }

  /** The key invariant of the application lifecycle: at most one application per (user, job) pair. */
  ghost predicate OneApplicationPerPair(apps: seq<Application>) {
    forall i, j :: 0 <= i < |apps| && 0 <= j < |apps| && i != j ==>
      !(apps[i].userId == apps[j].userId && apps[i].jobPostingId == apps[j].jobPostingId)
  }

  /** Every identifier in use is below the counter, so the counter is always fresh. */
  ghost predicate IdsBelow(t: Tables) {
    && (forall u :: u in t.users ==> u.id < t.nextId)
    && (forall p :: p in t.profiles ==> p.userId < t.nextId)
    && (forall j :: j in t.jobs ==> j.id < t.nextId)
    && (forall a :: a in t.applications ==> a.id < t.nextId)
  }

  /** What a consistent store keeps: unique keys, the one-application-per-pair rule, a fresh counter. */
  ghost predicate WellFormed(t: Tables) {
    && UniqueUserIds(t.users)
    && UniqueEmails(t.users)
    && OneProfilePerUser(t.profiles)
    && UniqueJobIds(t.jobs)
    && UniqueApplicationIds(t.applications)
    && OneApplicationPerPair(t.applications)
    && IdsBelow(t)
  }

  /** In a well-formed store a user id names at most one user. */
  lemma UserIdNamesOneUser(t: Tables, u: User, v: User)
    requires WellFormed(t) && u in t.users && v in t.users && u.id == v.id
    ensures u == v
  {
    var i :| 0 <= i < |t.users| && t.users[i] == u;
    var j :| 0 <= j < |t.users| && t.users[j] == v;
    assert i == j;
  }

  /** In a well-formed store a user id names at most one profile. */
  lemma UserIdNamesOneProfile(t: Tables, p: Profile, q: Profile)
    requires WellFormed(t) && p in t.profiles && q in t.profiles && p.userId == q.userId
    ensures p == q
  {
    var i :| 0 <= i < |t.profiles| && t.profiles[i] == p;
    var j :| 0 <= j < |t.profiles| && t.profiles[j] == q;
    assert i == j;
  }

  /** A table with unique ids repeats no row. */
  lemma JobsDistinct(jobs: seq<Job>)
    requires UniqueJobIds(jobs)
    ensures Distinct(jobs)
  {
  }

  /** A table with unique ids repeats no row. */
  lemma ApplicationsDistinct(apps: seq<Application>)
    requires UniqueApplicationIds(apps)
    ensures Distinct(apps)
  {
  }
}
