/**
 * /api/profile: the caller's own profile with a password-free view of the
 * user (GET), and a partial update of the editable profile fields (PUT).
 * Both read the session through the request's cookie first.
 */
module ProfileRoute {
  import opened Common
  import opened Collections
  import opened Entities
  import opened Auth
  import opened Http
  import opened Requests
  import opened Store

  /** The `user` part of the GET answer: id, email and role only. */
  datatype PublicUser = PublicUser(id: Id, email: string, role: Role)

  /** The GET answer. */
  datatype ProfileView = ProfileView(profile: Profile, user: PublicUser)

  /**
   * GET: 401 when there is no session, 500 when the token carries no id,
   * 404 when no user has that id, 404 when the user has no profile.
   */
  function Get(t: Tables, req: Incoming): (r: Reply<ProfileView>)
    ensures r == Fail(NotAuthenticated) <==> RequestUser(req).None?
    ensures r.Ok? ==>
      && RequestUser(req).Some? && RequestUser(req).value.id == Some(r.value.user.id)
      && r.value.profile in t.profiles && r.value.profile.userId == r.value.user.id
      && exists u :: u in t.users && u.id == r.value.user.id && u.email == r.value.user.email && u.role == r.value.user.role
    ensures r.Fail? ==> r.error in {NotAuthenticated, InternalError, NotFound(UserRecord), NotFound(ProfileRecord)}
    ensures r == Fail(NotFound(UserRecord)) <==>
      && RequestUser(req).Some? && RequestUser(req).value.id.Some?
      && forall u :: u in t.users ==> u.id != RequestUser(req).value.id.value
    ensures r == Fail(NotFound(ProfileRecord)) <==>
      && RequestUser(req).Some? && RequestUser(req).value.id.Some?
      && UserById(t.users, RequestUser(req).value.id.value).Some?
      && forall p :: p in t.profiles ==> p.userId != RequestUser(req).value.id.value
  {
    match RequestUser(req)
    case None => Fail(NotAuthenticated)
    case Some(c) =>
      if c.id.None? then Fail(InternalError)
      else
        match UserById(t.users, c.id.value)
        case None => Fail(NotFound(UserRecord))
        case Some(u) =>
          match ProfileOf(t.profiles, u.id)
          case None => Fail(NotFound(ProfileRecord))
          case Some(p) => Ok(ProfileView(p, PublicUser(u.id, u.email, u.role)))
  }

  /** In a consistent store a signed-in user with a profile gets exactly their own rows. */
  lemma GetReturnsOwnRows(t: Tables, req: Incoming, u: User, p: Profile)
    requires WellFormed(t)
    requires RequestUser(req).Some? && RequestUser(req).value.id == Some(u.id)
    requires u in t.users && p in t.profiles && p.userId == u.id
    ensures Get(t, req) == Ok(ProfileView(p, PublicUser(u.id, u.email, u.role)))
  {
    UserIdNamesOneUser(t, UserById(t.users, u.id).value, u);
    UserIdNamesOneProfile(t, ProfileOf(t.profiles, u.id).value, p);
  }

  /** A signed-in caller whose id names no stored user gets 404 'User not found'. */
  lemma GetUnknownUserNotFound(t: Tables, req: Incoming, uid: Id)
    requires RequestUser(req).Some? && RequestUser(req).value.id == Some(uid)
    requires forall u :: u in t.users ==> u.id != uid
    ensures Get(t, req) == Fail(NotFound(UserRecord))
  {
  }

  /** A stored user without a profile gets 404 'Profile not found'. */
  lemma GetMissingProfileNotFound(t: Tables, req: Incoming, u: User)
    requires RequestUser(req).Some? && RequestUser(req).value.id == Some(u.id) && u in t.users
    requires forall p :: p in t.profiles ==> p.userId != u.id
    ensures Get(t, req) == Fail(NotFound(ProfileRecord))
  {
  }

  /** One field of the PUT body: left out (`undefined`), or given. */
  datatype Patch<T> = Keep | Write(value: T)

  /** The PUT body: the five editable fields; phone and MBTI type may be given as null. */
  datatype ProfilePatch = ProfilePatch(
    firstName: Patch<string>, lastName: Patch<string>, phone: Patch<Option<string>>,
    mbtiType: Patch<Option<string>>, mbtiCompleted: Patch<bool>)

  /** The empty body. */
  const NoChange := ProfilePatch(Keep, Keep, Keep, Keep, Keep)

  /** A field after the update: the given value, or the old one when left out. */
  function Merge<T>(current: T, p: Patch<T>): (r: T)
    ensures p.Write? ==> r == p.value
    ensures p.Keep? ==> r == current
  {
    if p.Write? then p.value else current
  }

  /** The profile after the update: given fields overwritten, every other field kept. */
  function ApplyPatch(p: Profile, patch: ProfilePatch): (q: Profile)
    ensures q.userId == p.userId && q.resumeUrl == p.resumeUrl && q.certificateUrl == p.certificateUrl
    ensures q.firstName == Merge(p.firstName, patch.firstName) && q.lastName == Merge(p.lastName, patch.lastName)
    ensures q.phone == Merge(p.phone, patch.phone) && q.mbtiType == Merge(p.mbtiType, patch.mbtiType)
    ensures q.mbtiCompleted == Merge(p.mbtiCompleted, patch.mbtiCompleted)
  {
    p.(firstName := Merge(p.firstName, patch.firstName),
       lastName := Merge(p.lastName, patch.lastName),
       phone := Merge(p.phone, patch.phone),
       mbtiType := Merge(p.mbtiType, patch.mbtiType),
       mbtiCompleted := Merge(p.mbtiCompleted, patch.mbtiCompleted))
  }

  /** An empty body changes nothing. */
  lemma EmptyPatchIsIdentity(p: Profile)
    ensures ApplyPatch(p, NoChange) == p
  {
  }

  /** Sending the same body twice has the effect of sending it once. */
  lemma PatchIsIdempotent(p: Profile, patch: ProfilePatch)
    ensures ApplyPatch(ApplyPatch(p, patch), patch) == ApplyPatch(p, patch)
  {
  }

  /** Two bodies one after the other: the later given value wins, field by field. */
  lemma LaterPatchWins(p: Profile, first: ProfilePatch, second: ProfilePatch)
    ensures ApplyPatch(ApplyPatch(p, first), second) ==
      ApplyPatch(p, ProfilePatch(
        if second.firstName.Write? then second.firstName else first.firstName,
        if second.lastName.Write? then second.lastName else first.lastName,
        if second.phone.Write? then second.phone else first.phone,
        if second.mbtiType.Write? then second.mbtiType else first.mbtiType,
        if second.mbtiCompleted.Write? then second.mbtiCompleted else first.mbtiCompleted))
  {
  }

  /** `profile.update({ where: { userId } })`: the row(s) of `q`'s user replaced by `q`, every other row kept. */
  function ReplaceProfile(profiles: seq<Profile>, q: Profile): (r: seq<Profile>)
    ensures |r| == |profiles|
    ensures forall i :: 0 <= i < |profiles| && profiles[i].userId == q.userId ==> r[i] == q
    ensures forall i :: 0 <= i < |profiles| && profiles[i].userId != q.userId ==> r[i] == profiles[i]
  {
    seq(|profiles|, i requires 0 <= i < |profiles| => if profiles[i].userId == q.userId then q else profiles[i])
  }

  /**
   * PUT, as a function of the store: 401 when there is no session, 500 when
   * the token carries no id, 404 when the caller has no profile, otherwise
   * the caller's profile with the body applied.
   */
  function UpdateProfile(t: Tables, req: Incoming, patch: ProfilePatch): (out: Step<Profile>)
    ensures out.reply == Fail(NotAuthenticated) <==> RequestUser(req).None?
    ensures !out.reply.Ok? ==> out.reply.Fail? && out.tables == t
    ensures out.reply.Ok? ==>
      && RequestUser(req).Some? && RequestUser(req).value.id == Some(out.reply.value.userId)
      && out.tables == t.(profiles := ReplaceProfile(t.profiles, out.reply.value))
  {
    match RequestUser(req)
    case None => Step(Fail(NotAuthenticated), t)
    case Some(c) =>
      if c.id.None? then Step(Fail(InternalError), t)
      else
        match ProfileOf(t.profiles, c.id.value)
        case None => Step(Fail(NotFound(ProfileRecord)), t)
        case Some(p) =>
          var q := ApplyPatch(p, patch);
          Step(Ok(q), t.(profiles := ReplaceProfile(t.profiles, q)))
  }

  /** PUT: the handler, updating the caller's profile in place. */
  method Put(db: Database, req: Incoming, patch: ProfilePatch) returns (r: Reply<Profile>)
    requires db.Valid()
    modifies db
    ensures db.Valid()
    ensures Step(r, db.Tables()) == UpdateProfile(old(db.Tables()), req, patch)
  {
    var decoded := RequestUser(req);
    if decoded.None? {
      return Fail(NotAuthenticated);
    }
    if decoded.value.id.None? {
      return Fail(InternalError);
    }
    var current := ProfileOf(db.profiles, decoded.value.id.value);
    if current.None? {
      return Fail(NotFound(ProfileRecord));
    }
    UpdatePreservesWellFormed(db.Tables(), req, patch);
    var updated := ApplyPatch(current.value, patch);
    db.profiles := ReplaceProfile(db.profiles, updated);
    r := Ok(updated);
  }

  /** A successful PUT changes only the caller's profile, and in it only the fields the body gives. */
  lemma UpdateTouchesOnlyCallersProfile(t: Tables, req: Incoming, patch: ProfilePatch, p: Profile)
    requires WellFormed(t)
    requires RequestUser(req).Some? && RequestUser(req).value.id == Some(p.userId) && p in t.profiles
    ensures UpdateProfile(t, req, patch).reply == Ok(ApplyPatch(p, patch))
    ensures forall q :: q in t.profiles && q.userId != p.userId ==> q in UpdateProfile(t, req, patch).tables.profiles
  {
    UserIdNamesOneProfile(t, ProfileOf(t.profiles, p.userId).value, p);
    var after := UpdateProfile(t, req, patch).tables.profiles;
    forall q | q in t.profiles && q.userId != p.userId ensures q in after {
      var i :| 0 <= i < |t.profiles| && t.profiles[i] == q;
      assert after[i] == q;
    }
  }

  /** Without a profile row, PUT answers 404 and creates none. */
  lemma UpdateWithoutProfileNotFound(t: Tables, req: Incoming, patch: ProfilePatch, uid: Id)
    requires RequestUser(req).Some? && RequestUser(req).value.id == Some(uid)
    requires forall q :: q in t.profiles ==> q.userId != uid
    ensures UpdateProfile(t, req, patch) == Step(Fail(NotFound(ProfileRecord)), t)
  {
  }

  /** A profile update keeps the store consistent. */
  lemma UpdatePreservesWellFormed(t: Tables, req: Incoming, patch: ProfilePatch)
    requires WellFormed(t)
    ensures WellFormed(UpdateProfile(t, req, patch).tables)
  {
    var out := UpdateProfile(t, req, patch);
    if out.reply.Ok? {
      var ps := out.tables.profiles;
      forall i | 0 <= i < |ps| ensures ps[i].userId == t.profiles[i].userId { }
    }
  }
}
