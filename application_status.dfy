/**
 * /api/applications/status: an administrator sets an application's status
 * to any of the four labels and, when notes are given, overwrites its notes.
 * No transition is refused because of the current status.
 */
module ApplicationStatusRoute {
  import opened Common
  import opened Collections
  import opened Entities
  import opened Auth
  import opened Http
  import opened Requests
  import opened Store
  import ApplicationsRoute

  /** The record after the update: new status, notes only when truthy, fresh timestamp; nothing else moves. */
  function Restamp(a: Application, status: ApplicationStatus, notes: Option<string>, now: int): (b: Application)
    ensures b.id == a.id && b.userId == a.userId && b.jobPostingId == a.jobPostingId && b.createdAt == a.createdAt
    ensures b.status == status && b.updatedAt == now
    ensures Truthy(notes) ==> b.notes == notes
    ensures !Truthy(notes) ==> b.notes == a.notes
  {
    a.(status := status, notes := if Truthy(notes) then notes else a.notes, updatedAt := now)
  }

  /** `application.update({ where: { id } })`: the row with `b`'s id replaced by `b`, every other row kept. */
  function ReplaceApplication(apps: seq<Application>, b: Application): (r: seq<Application>)
    ensures |r| == |apps|
    ensures forall i :: 0 <= i < |apps| && apps[i].id == b.id ==> r[i] == b
    ensures forall i :: 0 <= i < |apps| && apps[i].id != b.id ==> r[i] == apps[i]
  {
    seq(|apps|, i requires 0 <= i < |apps| => if apps[i].id == b.id then b else apps[i])
  }

  /**
   * POST, as a function of the store: 401 without a valid token, 403 unless
   * the stored user is an administrator, 400 without id or status, 400 for a
   * label outside the four, 404 for an unknown id, and otherwise the update.
   */
  function UpdateStatus(t: Tables, req: Incoming, applicationId: Option<Id>, status: Option<string>,
                        notes: Option<string>, now: int): (out: Step<Application>)
    ensures !out.reply.Ok? ==> out.reply.Fail? && out.tables == t
    ensures out.reply.Ok? ==> out.tables == t.(applications := out.tables.applications)
    ensures DecodeStoreToken(req).Deny? ==> out == Step(Fail(DecodeStoreToken(req).error), t)
  {
    match DecodeStoreToken(req)
    case Deny(e) => Step(Fail(e), t)
    case Pass(c) =>
      if c.id.None? then Step(Fail(InternalError), t)
      else
        var user := UserById(t.users, c.id.value);
        if user.None? || user.value.role != Admin then Step(Fail(Forbidden), t)
        else if applicationId.None? || !Truthy(status) then Step(Fail(BadRequest(MissingRequiredFields)), t)
        else
          match ParseStatus(status.value)
          case None => Step(Fail(BadRequest(InvalidStatus)), t)
          case Some(s) =>
            match ApplicationById(t.applications, applicationId.value)
            case None => Step(Fail(NotFound(ApplicationRecord)), t)
            case Some(a) =>
              var b := Restamp(a, s, notes, now);
              Step(Ok(b), t.(applications := ReplaceApplication(t.applications, b)))
  }

  /** POST: the handler, updating the one record in place. */
  method Post(db: Database, req: Incoming, applicationId: Option<Id>, status: Option<string>,
              notes: Option<string>, now: int) returns (r: Reply<Application>)
    requires db.Valid()
    modifies db
    ensures db.Valid()
    ensures Step(r, db.Tables()) == UpdateStatus(old(db.Tables()), req, applicationId, status, notes, now)
  {
    var token := GetTokenFromCookies(NoRequest, req.cookieStore);
    if token.None? {
      return Fail(NotAuthenticated);
    }
    var decoded := VerifyToken(req.verifier, token.value);
    if decoded.None? {
      return Fail(InvalidToken);
    }
    if decoded.value.id.None? {
      return Fail(InternalError);
    }
    var user := UserById(db.users, decoded.value.id.value);
    if user.None? || user.value.role != Admin {
      return Fail(Forbidden);
    }
    if applicationId.None? || !Truthy(status) {
      return Fail(BadRequest(MissingRequiredFields));
    }
    var parsed := ParseStatus(status.value);
    if parsed.None? {
      return Fail(BadRequest(InvalidStatus));
    }
    var current := ApplicationById(db.applications, applicationId.value);
    if current.None? {
      return Fail(NotFound(ApplicationRecord));
    }
    UpdatePreservesWellFormed(db.Tables(), req, applicationId, status, notes, now);
    var updated := Restamp(current.value, parsed.value, notes, now);
    db.applications := ReplaceApplication(db.applications, updated);
    r := Ok(updated);
  }

  /** Only a caller whose stored role is ADMIN gets past the guards; everyone else gets 401, 403 or 500. */
  lemma OnlyStoredAdminsUpdate(t: Tables, req: Incoming, applicationId: Option<Id>, status: Option<string>,
                               notes: Option<string>, now: int)
    requires WellFormed(t)
    ensures var r := UpdateStatus(t, req, applicationId, status, notes, now).reply;
      r.Ok? || r.error.BadRequest? || r.error.NotFound? ==>
        StoreUser(req).Some? && ApplicationsRoute.IsStoredAdmin(t, StoreUser(req).value)
    ensures (StoreUser(req).Some? && StoreUser(req).value.id.Some?
             && !ApplicationsRoute.IsStoredAdmin(t, StoreUser(req).value)) ==>
        UpdateStatus(t, req, applicationId, status, notes, now) == Step(Fail(Forbidden), t)
  {
    ApplicationsRoute.GetOnlyForStoredAdmins(t, req);
  }

  /** An administrator's request without an id or a status gives 400 and no update. */
  lemma MissingFieldsRefused(t: Tables, req: Incoming, applicationId: Option<Id>, status: Option<string>,
                             notes: Option<string>, now: int)
    requires StoreUser(req).Some? && StoreUser(req).value.id.Some?
    requires UserById(t.users, StoreUser(req).value.id.value).Some?
    requires UserById(t.users, StoreUser(req).value.id.value).value.role == Admin
    requires applicationId.None? || !Truthy(status)
    ensures UpdateStatus(t, req, applicationId, status, notes, now) == Step(Fail(BadRequest(MissingRequiredFields)), t)
  {
  }

  /** An administrator's request with a label outside the four gives 400 and no update. */
  lemma UnknownLabelRefused(t: Tables, req: Incoming, id: Id, text: string, notes: Option<string>, now: int)
    requires StoreUser(req).Some? && StoreUser(req).value.id.Some?
    requires UserById(t.users, StoreUser(req).value.id.value).Some?
    requires UserById(t.users, StoreUser(req).value.id.value).value.role == Admin
    requires text != "" && text !in ValidStatuses
    ensures UpdateStatus(t, req, Some(id), Some(text), notes, now) == Step(Fail(BadRequest(InvalidStatus)), t)
  {
  }

  /** An administrator's request for an unknown application gives 404. */
  lemma UnknownApplicationNotFound(t: Tables, req: Incoming, id: Id, s: ApplicationStatus, notes: Option<string>, now: int)
    requires StoreUser(req).Some? && StoreUser(req).value.id.Some?
    requires UserById(t.users, StoreUser(req).value.id.value).Some?
    requires UserById(t.users, StoreUser(req).value.id.value).value.role == Admin
    requires forall a :: a in t.applications ==> a.id != id
    ensures UpdateStatus(t, req, Some(id), Some(StatusLabel(s)), notes, now) == Step(Fail(NotFound(ApplicationRecord)), t)
  {
  }

  /**
   * Every label is accepted whatever the current status (including the same
   * one): the named application alone is changed, in status, notes and
   * timestamp only.
   */
  lemma AnyTransitionAccepted(t: Tables, req: Incoming, a: Application, s: ApplicationStatus,
                              notes: Option<string>, now: int)
    requires WellFormed(t)
    requires StoreUser(req).Some? && StoreUser(req).value.id.Some?
    requires UserById(t.users, StoreUser(req).value.id.value).Some?
    requires UserById(t.users, StoreUser(req).value.id.value).value.role == Admin
    requires a in t.applications
    ensures var out := UpdateStatus(t, req, Some(a.id), Some(StatusLabel(s)), notes, now);
      && out.reply == Ok(Restamp(a, s, notes, now))
      && out.tables.applications == ReplaceApplication(t.applications, Restamp(a, s, notes, now))
  {
    var found := ApplicationById(t.applications, a.id).value;
    var i :| 0 <= i < |t.applications| && t.applications[i] == a;
    var j :| 0 <= j < |t.applications| && t.applications[j] == found;
    assert i == j;
  }

  /** Repeating the same update at the same time is accepted again and changes nothing further. */
  lemma {:induction false} UpdateIsIdempotent(t: Tables, req: Incoming, a: Application, s: ApplicationStatus,
                                             notes: Option<string>, now: int)
    requires WellFormed(t)
    requires StoreUser(req).Some? && StoreUser(req).value.id.Some?
    requires UserById(t.users, StoreUser(req).value.id.value).Some?
    requires UserById(t.users, StoreUser(req).value.id.value).value.role == Admin
    requires a in t.applications
    ensures var once := UpdateStatus(t, req, Some(a.id), Some(StatusLabel(s)), notes, now);
      var twice := UpdateStatus(once.tables, req, Some(a.id), Some(StatusLabel(s)), notes, now);
      twice.reply == once.reply && twice.tables == once.tables
  {
    var b := Restamp(a, s, notes, now);
    AnyTransitionAccepted(t, req, a, s, notes, now);
    var once := UpdateStatus(t, req, Some(a.id), Some(StatusLabel(s)), notes, now);
    UpdatePreservesWellFormed(t, req, Some(a.id), Some(StatusLabel(s)), notes, now);
    var i :| 0 <= i < |t.applications| && t.applications[i] == a;
    assert once.tables.applications[i] == b;
    assert once.tables.users == t.users;
    AnyTransitionAccepted(once.tables, req, b, s, notes, now);
    assert Restamp(b, s, notes, now) == b;
    var twiceApps := ReplaceApplication(once.tables.applications, b);
    assert twiceApps == once.tables.applications;
  }

  /** The update keeps the store consistent: ids and (user, job) pairs are untouched. */
  lemma UpdatePreservesWellFormed(t: Tables, req: Incoming, applicationId: Option<Id>, status: Option<string>,
                                  notes: Option<string>, now: int)
    requires WellFormed(t)
    ensures WellFormed(UpdateStatus(t, req, applicationId, status, notes, now).tables)
  {
    var out := UpdateStatus(t, req, applicationId, status, notes, now);
    if out.reply.Ok? {
      var b := out.reply.value;
      var apps := out.tables.applications;
      var a := ApplicationById(t.applications, applicationId.value).value;
      assert b == Restamp(a, b.status, notes, now);
      assert apps == ReplaceApplication(t.applications, b);
      forall i | 0 <= i < |apps|
        ensures apps[i].id == t.applications[i].id
        ensures apps[i].userId == t.applications[i].userId
        ensures apps[i].jobPostingId == t.applications[i].jobPostingId
      {
        if t.applications[i].id == b.id {
          var k :| 0 <= k < |t.applications| && t.applications[k] == a;
          assert k == i;
        }
      }
      forall x | x in apps ensures x.id < t.nextId {
        var i :| 0 <= i < |apps| && apps[i] == x;
        assert t.applications[i] in t.applications;
      }
    }
  }
}
