/**
 * /api/auth/session: the client's session probe. It reads the token from
 * the cookie store only and never fails: every problem, including a token
 * without an id or an unknown user, gives `{ user: null }`.
 */
module SessionRoute {
  import opened Common
  import opened Collections
  import opened Entities
  import opened Auth
  import opened Requests

  /** The session's user: id, email, role and, when there is a profile, the display name. */
  datatype SessionUser = SessionUser(id: Id, email: string, role: Role, name: Option<string>)

  /** `${firstName} ${lastName}`. */
  function DisplayName(p: Profile): (name: string)
    ensures |name| == |p.firstName| + 1 + |p.lastName|
    ensures name[..|p.firstName|] == p.firstName
    ensures name[|p.firstName|] == ' '
    ensures name[|p.firstName| + 1..] == p.lastName
  {
    p.firstName + " " + p.lastName
  }

  /** The claims of a verified store token carrying an id. */
  function SessionClaims(req: Incoming): Option<Claims> {
    var token := GetTokenFromCookies(NoRequest, req.cookieStore);
    if token.None? then None
    else
      var decoded := VerifyToken(req.verifier, token.value);
      if decoded.None? || decoded.value.id.None? then None else decoded
  }

  /** GET: `user` or `null`. */
  function Get(t: Tables, req: Incoming): (r: Option<SessionUser>)
    ensures r.Some? ==>
      && StoreUser(req).Some? && StoreUser(req).value.id == Some(r.value.id)
      && exists u :: u in t.users && u.id == r.value.id && u.email == r.value.email && u.role == r.value.role
    ensures r.Some? ==> (r.value.name.Some? <==> exists p :: p in t.profiles && p.userId == r.value.id)
    ensures StoreUser(req).None? ==> r.None?
  {
    match SessionClaims(req)
    case None => None
    case Some(c) =>
      match UserById(t.users, c.id.value)
      case None => None
      case Some(u) =>
        var profile := ProfileOf(t.profiles, u.id);
        Some(SessionUser(u.id, u.email, u.role, if profile.Some? then Some(DisplayName(profile.value)) else None))
  }

  /** A session exists exactly when the store token verifies, carries an id, and names a stored user. */
  lemma SessionIffKnownUser(t: Tables, req: Incoming)
    ensures Get(t, req).Some? <==>
      StoreUser(req).Some? && StoreUser(req).value.id.Some?
      && exists u :: u in t.users && u.id == StoreUser(req).value.id.value
  {
  }

  /** The request's own cookie plays no part in the session. */
  lemma RequestCookieIgnored(t: Tables, req: Incoming, token: Option<string>)
    ensures Get(t, req.(requestToken := token)) == Get(t, req)
  {
  }

  /** In a consistent store the session names the stored user of the token's id, with their profile's name. */
  lemma SessionNamesStoredUser(t: Tables, req: Incoming, u: User, p: Profile)
    requires WellFormed(t)
    requires u in t.users && p in t.profiles && p.userId == u.id
    requires StoreUser(req).Some? && StoreUser(req).value.id == Some(u.id)
    ensures Get(t, req) == Some(SessionUser(u.id, u.email, u.role, Some(p.firstName + " " + p.lastName)))
  {
    UserIdNamesOneUser(t, UserById(t.users, u.id).value, u);
    UserIdNamesOneProfile(t, ProfileOf(t.profiles, u.id).value, p);
  }
}
