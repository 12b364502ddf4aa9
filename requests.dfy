/**
 * What a route handler receives besides its JSON body, and the guard steps
 * that several handlers repeat word for word.
 */
module Requests {
  import opened Common
  import opened Entities
  import opened Auth
  import opened Http

  /** The request's own `token` cookie, the ambient cookie store and the token verifier. */
  datatype Incoming = Incoming(requestToken: Option<string>, cookieStore: CookieStore, verifier: Verifier)

  /** A handler's reply together with the store it leaves behind. */
  datatype Step<T> = Step(reply: Reply<T>, tables: Tables)

  /** The outcome of a guard: go on with a value, or answer with an error. */
  datatype Gate<T> = Pass(value: T) | Deny(error: Error)

  /** `getCurrentUser(request)` for a handler that passes its request along. */
  function RequestUser(req: Incoming): Option<Claims> {
    GetCurrentUser(Request(req.requestToken), req.cookieStore, req.verifier)
  }

  /** `getCurrentUser()` for a handler that does not. */
  function StoreUser(req: Incoming): Option<Claims> {
    GetCurrentUser(NoRequest, req.cookieStore, req.verifier)
  }

  /**
   * The opening of the applications routes: read `token` from the cookie
   * store (401 'Not authenticated' when absent), then verify it (401
   * 'Invalid token' when it fails).
   */
  function DecodeStoreToken(req: Incoming): (g: Gate<Claims>)
    ensures g == Deny(NotAuthenticated) <==> GetTokenFromCookies(NoRequest, req.cookieStore).None?
    ensures g.Pass? <==> StoreUser(req).Some?
    ensures g.Pass? ==> StoreUser(req) == Some(g.value)
    ensures g.Deny? ==> g.error == NotAuthenticated || g.error == InvalidToken
  {
    var token := GetTokenFromCookies(NoRequest, req.cookieStore);
    if token.None? then Deny(NotAuthenticated)
    else
      var decoded := VerifyToken(req.verifier, token.value);
      if decoded.None? then Deny(InvalidToken) else Pass(decoded.value)
  }

  /**
   * The employer routes' guard on the token's claims: 401 without a user,
   * 403 without an id or with a role claim other than EMPLOYER.
   */
  function EmployerCaller(user: Option<Claims>): (g: Gate<Id>)
    ensures g == Deny(NotAuthenticated) <==> user.None?
    ensures g.Pass? <==> user.Some? && user.value.id.Some? && user.value.role == Some(RoleLabel(Employer))
    ensures g.Pass? ==> user.value.id == Some(g.value)
    ensures g.Deny? ==> g.error == NotAuthenticated || g.error == Forbidden
  {
    if user.None? then Deny(NotAuthenticated)
    else if user.value.id.None? || user.value.role != Some("EMPLOYER") then Deny(Forbidden)
    else Pass(user.value.id.value)
  }

  /** ADMIN is not EMPLOYER: the employer guard refuses an administrator's token with 403. */
  lemma AdminIsNotEmployer(c: Claims)
    requires c.role == Some(RoleLabel(Admin))
    ensures EmployerCaller(Some(c)) == Deny(Forbidden)
  {
  }
}
