/**
 * /api/auth/me: the signed-in user with their profile and without the
 * password hash. A token that fails verification is answered with 401 and
 * an instruction to delete the `token` cookie.
 */
module MeRoute {
  import opened Common
  import opened Collections
  import opened Entities
  import opened Auth
  import opened Http
  import opened Requests

  /** The user row without `password`, with its profile (`include: { profile: true }`). */
  datatype SafeUser = SafeUser(id: Id, email: string, role: Role, createdAt: int, profile: Option<Profile>)

  /** The reply and whether it deletes the `token` cookie. */
  datatype MeResponse = MeResponse(reply: Reply<SafeUser>, deletesTokenCookie: bool)

  /** `const { password, ...userWithoutPassword } = user`. */
  function StripPassword(u: User, profile: Option<Profile>): (s: SafeUser)
    ensures s.id == u.id && s.email == u.email && s.role == u.role && s.createdAt == u.createdAt
    ensures s.profile == profile
  {
    SafeUser(u.id, u.email, u.role, u.createdAt, profile)
  }

  /** The inverse of `StripPassword`, given the hash it removed. */
  function RestorePassword(s: SafeUser, password: string): User {
    User(s.id, s.email, password, s.role, s.createdAt)
  }

  /** Stripping removes the password and nothing else. */
  lemma StripRestoreRoundTrip(u: User, profile: Option<Profile>)
    ensures RestorePassword(StripPassword(u, profile), u.password) == u
  {
  }

  /** Two rows that differ only in their password hash are answered identically. */
  lemma StripIgnoresPassword(u: User, password: string, profile: Option<Profile>)
    ensures StripPassword(u.(password := password), profile) == StripPassword(u, profile)
  {
  }

  /**
   * GET: 401 with no token, 401 and cookie deletion for a token that fails
   * verification, 500 for a token without id, 404 for an unknown id,
   * otherwise the user without the password.
   */
  function Get(t: Tables, req: Incoming): (r: MeResponse)
    ensures r.deletesTokenCookie <==> r.reply == Fail(InvalidToken)
    ensures r.reply.Fail? && r.reply.error.NotAuthenticated? <==>
      GetTokenFromCookies(Request(req.requestToken), req.cookieStore).None?
    ensures r.reply == Fail(NotFound(UserRecord)) <==>
      && RequestUser(req).Some? && RequestUser(req).value.id.Some?
      && forall u :: u in t.users ==> u.id != RequestUser(req).value.id.value
    ensures r.reply.Ok? ==>
      && RequestUser(req).Some? && RequestUser(req).value.id == Some(r.reply.value.id)
      && exists u :: u in t.users && StripPassword(u, ProfileOf(t.profiles, u.id)) == r.reply.value
  {
    var token := GetTokenFromCookies(Request(req.requestToken), req.cookieStore);
    if token.None? then MeResponse(Fail(NotAuthenticated), false)
    else
      match VerifyToken(req.verifier, token.value)
      case None => MeResponse(Fail(InvalidToken), true)
      case Some(decoded) =>
        if decoded.id.None? then MeResponse(Fail(InternalError), false)
        else
          match UserById(t.users, decoded.id.value)
          case None => MeResponse(Fail(NotFound(UserRecord)), false)
          case Some(u) => MeResponse(Ok(StripPassword(u, ProfileOf(t.profiles, u.id))), false)
  }

  /** The route answers 401 exactly when the shared session helper finds no signed-in user. */
  lemma UnauthorizedIffNoSession(t: Tables, req: Incoming)
    ensures Get(t, req).reply in {Fail(NotAuthenticated), Fail(InvalidToken)} <==> RequestUser(req).None?
  {
  }

  /** A valid token whose id names no stored user gives 404, and the cookie is kept. */
  lemma UnknownUserNotFound(t: Tables, req: Incoming, uid: Id)
    requires RequestUser(req).Some? && RequestUser(req).value.id == Some(uid)
    requires forall u :: u in t.users ==> u.id != uid
    ensures Get(t, req) == MeResponse(Fail(NotFound(UserRecord)), false)
  {
  }

  /** In a consistent store the answer is the stored row of the token's id, password removed. */
  lemma GetReturnsStoredUser(t: Tables, req: Incoming, u: User)
    requires WellFormed(t)
    requires u in t.users && RequestUser(req).Some? && RequestUser(req).value.id == Some(u.id)
    ensures Get(t, req).reply == Ok(StripPassword(u, ProfileOf(t.profiles, u.id)))
    ensures RestorePassword(Get(t, req).reply.value, u.password) == u
  {
    UserIdNamesOneUser(t, UserById(t.users, u.id).value, u);
  }
}
