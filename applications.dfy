/**
 * /api/applications: the administrators' list of every application (GET)
 * and the submission precondition chain (POST), whose duplicate probe keeps
 * at most one application per (user, job) pair.
 */
module ApplicationsRoute {
  import opened Common
  import opened Collections
  import opened Sorting
  import opened Entities
  import opened Auth
  import opened Http
  import opened Requests
  import opened Store

  /** The caller's id names a stored user whose role is ADMIN. */
  ghost predicate IsStoredAdmin(t: Tables, c: Claims) {
    c.id.Some? && exists u :: u in t.users && u.id == c.id.value && u.role == Admin
  }

  /** GET: every application, newest first, for a caller whose stored role is ADMIN. */
  function Get(t: Tables, req: Incoming): (r: Reply<seq<Application>>)
    ensures r.Ok? ==> SortedDesc(r.value, AppCreatedAt) && multiset(r.value) == multiset(t.applications)
    ensures r.Fail? || r.Ok?
    ensures r.Fail? ==> r.error in {NotAuthenticated, InvalidToken, InternalError, Forbidden}
    ensures DecodeStoreToken(req).Deny? ==> r == Fail(DecodeStoreToken(req).error)
  {
    match DecodeStoreToken(req)
    case Deny(e) => Fail(e)
    case Pass(c) =>
      if c.id.None? then Fail(InternalError)
      else
        var user := UserById(t.users, c.id.value);
        if user.None? || user.value.role != Admin then Fail(Forbidden)
        else Ok(SortByKeyDesc(t.applications, AppCreatedAt))
  }

  /** GET answers with data exactly for a verified caller whose stored user is an administrator; otherwise 401/403/500. */
  lemma GetOnlyForStoredAdmins(t: Tables, req: Incoming)
    requires WellFormed(t)
    ensures Get(t, req).Ok? <==> StoreUser(req).Some? && IsStoredAdmin(t, StoreUser(req).value)
    ensures (StoreUser(req).Some? && StoreUser(req).value.id.Some? && !IsStoredAdmin(t, StoreUser(req).value))
      ==> Get(t, req) == Fail(Forbidden)
  {
    var c := StoreUser(req);
    if c.Some? && c.value.id.Some? {
      var user := UserById(t.users, c.value.id.value);
      if IsStoredAdmin(t, c.value) {
        var u :| u in t.users && u.id == c.value.id.value && u.role == Admin;
        UserIdNamesOneUser(t, u, user.value);
      }
    }
  }

  /** The documents the applicant still has to upload, résumé first: the `missingDocs` list. */
  function AbsentDocuments(p: Profile): (docs: seq<Document>)
    ensures Resume in docs <==> !Truthy(p.resumeUrl)
    ensures SkillsCertificate in docs <==> !Truthy(p.certificateUrl)
    ensures |docs| <= 2 && (|docs| == 2 ==> docs == [Resume, SkillsCertificate])
    ensures docs == [] <==> Truthy(p.resumeUrl) && Truthy(p.certificateUrl)
  {
    (if !Truthy(p.resumeUrl) then [Resume] else []) + (if !Truthy(p.certificateUrl) then [SkillsCertificate] else [])
  }

  /** The `missingDocuments` strings of the 400 answer: the label of each absent document, in order. */
  function MissingDocumentNames(p: Profile): (names: seq<string>)
    ensures |names| == |AbsentDocuments(p)|
    ensures forall i :: 0 <= i < |names| ==> names[i] == DocumentLabel(AbsentDocuments(p)[i])
  {
    var docs := AbsentDocuments(p);
    seq(|docs|, i requires 0 <= i < |docs| => DocumentLabel(docs[i]))
  }

  /** The 400 answer names `resume` exactly when the résumé is absent and the certificate exactly when it is absent, résumé first. */
  lemma MissingDocumentNamesExactly(p: Profile)
    ensures "resume" in MissingDocumentNames(p) <==> !Truthy(p.resumeUrl)
    ensures "GiatMARA Skills Certificate" in MissingDocumentNames(p) <==> !Truthy(p.certificateUrl)
    ensures |MissingDocumentNames(p)| == 2 ==> MissingDocumentNames(p) == ["resume", "GiatMARA Skills Certificate"]
  {
    var names := MissingDocumentNames(p);
    var docs := AbsentDocuments(p);
    assert DocumentLabel(Resume) == "resume";
    assert DocumentLabel(SkillsCertificate) == "GiatMARA Skills Certificate";
    assert |"resume"| != |"GiatMARA Skills Certificate"|;
    if "resume" in names {
      var i :| 0 <= i < |names| && names[i] == "resume";
      assert docs[i] == Resume;
    }
    if !Truthy(p.resumeUrl) {
      assert docs[0] == Resume;
      assert names[0] == "resume";
    }
    if "GiatMARA Skills Certificate" in names {
      var i :| 0 <= i < |names| && names[i] == "GiatMARA Skills Certificate";
      assert docs[i] == SkillsCertificate;
    }
    if !Truthy(p.certificateUrl) {
      var k := |docs| - 1;
      assert docs[k] == SkillsCertificate;
      assert names[k] == "GiatMARA Skills Certificate";
    }
  }

  /** The row a successful submission inserts. */
  function NewApplication(id: Id, userId: Id, jobId: Id, now: int): (a: Application)
    ensures a.id == id && a.userId == userId && a.jobPostingId == jobId
    ensures a.status == Pending && a.notes.None?
    ensures a.createdAt == now && a.updatedAt == now
  {
    Application(id, userId, jobId, Pending, None, now, now)
  }

  /**
   * POST, as a function of the store: 401 without a valid token, 404 without
   * a profile, 400 MISSING_DOCUMENTS, 404 unless the job is open, 400 for a
   * duplicate, and otherwise one new PENDING application. The first failing
   * check decides; the caller's role is never examined.
   */
  function Submit(t: Tables, req: Incoming, jobPostingId: Option<Id>, now: int): (out: Step<Id>)
    ensures !out.reply.Ok? ==> out.reply.Fail? && out.tables == t
    ensures out.reply.Ok? ==>
      && out.reply.value == t.nextId
      && out.tables == t.(applications := out.tables.applications, nextId := t.nextId + 1)
      && |out.tables.applications| == |t.applications| + 1
      && out.tables.applications[..|t.applications|] == t.applications
      && out.tables.applications[|t.applications|].id == t.nextId
  {
    match DecodeStoreToken(req)
    case Deny(e) => Step(Fail(e), t)
    case Pass(c) =>
      if c.id.None? then Step(Fail(InternalError), t)
      else
        var uid := c.id.value;
        match ProfileOf(t.profiles, uid)
        case None => Step(Fail(NotFound(ProfileRecord)), t)
        case Some(p) =>
          var missing := AbsentDocuments(p);
          if missing != [] then Step(Fail(BadRequest(MissingDocuments(missing))), t)
          else if jobPostingId.None? then Step(Fail(InternalError), t)
          else if OpenJob(t.jobs, jobPostingId.value, now).None? then Step(Fail(NotFound(JobRecord)), t)
          else if ExistingApplication(t.applications, uid, jobPostingId.value).Some? then
            Step(Fail(BadRequest(AlreadyApplied)), t)
          else
            var a := NewApplication(t.nextId, uid, jobPostingId.value, now);
            Step(Ok(t.nextId), t.(applications := t.applications + [a], nextId := t.nextId + 1))
  }

  /** POST: the handler itself, walking the same chain and inserting into the store. */
  method Post(db: Database, req: Incoming, jobPostingId: Option<Id>, now: int) returns (r: Reply<Id>)
    requires db.Valid()
    modifies db
    ensures db.Valid()
    ensures Step(r, db.Tables()) == Submit(old(db.Tables()), req, jobPostingId, now)
  {
    var token := GetTokenFromCookies(NoRequest, req.cookieStore);
    if token.None? {
      return Fail(NotAuthenticated);
    }
    var decoded := VerifyToken(req.verifier, token.value);
    if decoded.None? {
      return Fail(InvalidToken);
    }
    if decoded.value.id.None? {
      return Fail(InternalError);
    }
    var uid := decoded.value.id.value;
    var profile := ProfileOf(db.profiles, uid);
    if profile.None? {
      return Fail(NotFound(ProfileRecord));
    }
    var missingDocs: seq<Document> := [];
    if !Truthy(profile.value.resumeUrl) {
      missingDocs := missingDocs + [Resume];
    }
    if !Truthy(profile.value.certificateUrl) {
      missingDocs := missingDocs + [SkillsCertificate];
    }
    assert missingDocs == AbsentDocuments(profile.value);
    if missingDocs != [] {
      return Fail(BadRequest(MissingDocuments(missingDocs)));
    }
    if jobPostingId.None? {
      return Fail(InternalError);
    }
    var job := OpenJob(db.jobs, jobPostingId.value, now);
    if job.None? {
      return Fail(NotFound(JobRecord));
    }
    var existing := ExistingApplication(db.applications, uid, jobPostingId.value);
    if existing.Some? {
      return Fail(BadRequest(AlreadyApplied));
    }
    SubmitPreservesWellFormed(db.Tables(), req, jobPostingId, now);
    var id := db.nextId;
    db.applications := db.applications + [NewApplication(id, uid, jobPostingId.value, now)];
    db.nextId := db.nextId + 1;
    r := Ok(id);
  }

  /** Without a token, or with one that fails verification, the answer is 401 and nothing else is read. */
  lemma SubmitNeedsValidToken(t: Tables, req: Incoming, jobPostingId: Option<Id>, now: int)
    ensures GetTokenFromCookies(NoRequest, req.cookieStore).None? ==>
      Submit(t, req, jobPostingId, now) == Step(Fail(NotAuthenticated), t)
    ensures GetTokenFromCookies(NoRequest, req.cookieStore).Some? && StoreUser(req).None? ==>
      Submit(t, req, jobPostingId, now) == Step(Fail(InvalidToken), t)
  {
  }

  /** A caller without a profile gets 404 and the store is unchanged. */
  lemma SubmitNeedsProfile(t: Tables, req: Incoming, jobPostingId: Option<Id>, now: int, c: Claims)
    requires StoreUser(req) == Some(c) && c.id.Some?
    requires forall p :: p in t.profiles ==> p.userId != c.id.value
    ensures Submit(t, req, jobPostingId, now) == Step(Fail(NotFound(ProfileRecord)), t)
  {
  }

  /** Missing documents are reported, exactly and résumé first, before the job is looked at. */
  lemma SubmitNeedsDocuments(t: Tables, req: Incoming, jobPostingId: Option<Id>, now: int, c: Claims, p: Profile)
    requires WellFormed(t)
    requires StoreUser(req) == Some(c) && c.id.Some?
    requires p in t.profiles && p.userId == c.id.value
    requires !Truthy(p.resumeUrl) || !Truthy(p.certificateUrl)
    ensures Submit(t, req, jobPostingId, now) == Step(Fail(BadRequest(MissingDocuments(AbsentDocuments(p)))), t)
  {
    UserIdNamesOneProfile(t, p, ProfileOf(t.profiles, c.id.value).value);
  }

  /** With complete documents, a job that is absent, INACTIVE or past its deadline gives 404. */
  lemma SubmitNeedsOpenJob(t: Tables, req: Incoming, jobId: Id, now: int, c: Claims, p: Profile)
    requires WellFormed(t)
    requires StoreUser(req) == Some(c) && c.id.Some?
    requires p in t.profiles && p.userId == c.id.value
    requires Truthy(p.resumeUrl) && Truthy(p.certificateUrl)
    requires forall j :: j in t.jobs && j.id == jobId ==> j.status == Inactive || j.deadline < now
    ensures Submit(t, req, Some(jobId), now) == Step(Fail(NotFound(JobRecord)), t)
  {
    UserIdNamesOneProfile(t, p, ProfileOf(t.profiles, c.id.value).value);
  }

  /** A second application for the same (user, job) pair gives 400 and leaves the store unchanged. */
  lemma SubmitRejectsDuplicate(t: Tables, req: Incoming, jobId: Id, now: int, c: Claims, a: Application)
    requires StoreUser(req) == Some(c) && c.id.Some?
    requires ProfileOf(t.profiles, c.id.value).Some? && AbsentDocuments(ProfileOf(t.profiles, c.id.value).value) == []
    requires OpenJob(t.jobs, jobId, now).Some?
    requires a in t.applications && a.userId == c.id.value && a.jobPostingId == jobId
    ensures Submit(t, req, Some(jobId), now) == Step(Fail(BadRequest(AlreadyApplied)), t)
  {
  }

  /**
   * The chain lets a request through when every check passes: a verified
   * token with an id, a profile with both documents, an open job, and no
   * earlier application for the pair.
   */
  lemma SubmitSucceedsWhenAllChecksPass(t: Tables, req: Incoming, jobId: Id, now: int, c: Claims, p: Profile, j: Job)
    requires WellFormed(t)
    requires StoreUser(req) == Some(c) && c.id.Some?
    requires p in t.profiles && p.userId == c.id.value
    requires Truthy(p.resumeUrl) && Truthy(p.certificateUrl)
    requires j in t.jobs && j.id == jobId && IsOpen(j, now)
    requires forall a :: a in t.applications ==> !(a.userId == c.id.value && a.jobPostingId == jobId)
    ensures Submit(t, req, Some(jobId), now).reply == Ok(t.nextId)
  {
    UserIdNamesOneProfile(t, p, ProfileOf(t.profiles, c.id.value).value);
  }

  /** Success adds exactly one PENDING row for the caller and the requested job, under a fresh id that is returned. */
  lemma SubmitInsertsOnePending(t: Tables, req: Incoming, jobPostingId: Option<Id>, now: int)
    requires WellFormed(t)
    requires Submit(t, req, jobPostingId, now).reply.Ok?
    ensures var out := Submit(t, req, jobPostingId, now);
      && StoreUser(req).Some? && StoreUser(req).value.id.Some? && jobPostingId.Some?
      && out.tables.applications == t.applications
           + [NewApplication(out.reply.value, StoreUser(req).value.id.value, jobPostingId.value, now)]
      && (forall a :: a in t.applications ==> a.id != out.reply.value)
  {
  }

  /** Submission keeps the store consistent; in particular at most one application per (user, job) pair. */
  lemma SubmitPreservesWellFormed(t: Tables, req: Incoming, jobPostingId: Option<Id>, now: int)
    requires WellFormed(t)
    ensures WellFormed(Submit(t, req, jobPostingId, now).tables)
  {
    var out := Submit(t, req, jobPostingId, now);
    if out.reply.Ok? {
      var uid := StoreUser(req).value.id.value;
      var jid := jobPostingId.value;
      var a := NewApplication(t.nextId, uid, jid, now);
      var apps := t.applications + [a];
      assert out.tables.applications == apps;
      assert forall b :: b in t.applications ==> !(b.userId == uid && b.jobPostingId == jid);
      forall i, j | 0 <= i < |apps| && 0 <= j < |apps| && i != j
        ensures apps[i].id != apps[j].id
        ensures !(apps[i].userId == apps[j].userId && apps[i].jobPostingId == apps[j].jobPostingId)
      {
        if i < |t.applications| && j < |t.applications| {
        } else if i < |t.applications| {
          assert apps[i] in t.applications && apps[j] == a;
        } else {
          assert apps[j] in t.applications && apps[i] == a;
        }
      }
    }
  }

  /** After a successful submission, the same caller can never submit for the same job again, at any time. */
  lemma {:induction false} SecondSubmissionFails(t: Tables, req: Incoming, jobPostingId: Option<Id>, now: int, later: int)
    requires Submit(t, req, jobPostingId, now).reply.Ok?
    ensures Submit(Submit(t, req, jobPostingId, now).tables, req, jobPostingId, later).reply
      in {Fail(BadRequest(AlreadyApplied)), Fail(NotFound(JobRecord))}
  {
    var first := Submit(t, req, jobPostingId, now);
    var uid := StoreUser(req).value.id.value;
    var a := NewApplication(t.nextId, uid, jobPostingId.value, now);
    assert first.tables.applications == t.applications + [a];
    assert a in first.tables.applications;
    assert ExistingApplication(first.tables.applications, uid, jobPostingId.value).Some?;
  }
}
