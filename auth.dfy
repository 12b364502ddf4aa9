/**
 * Credential access: the signing secret, token issue and verification, and
 * the lookup of the `token` cookie. The JSON Web Token library is a
 * parameter (`Verifier.jwtVerify`), so verification is uninterpreted; every
 * failure it reports collapses to `None`.
 */
module Auth {
  import opened Common
  import opened Entities

  /** The secret used when the environment supplies none. */
  const DefaultSecret: string := "default-secret-key"
  /** `expiresIn: '24h'`, in seconds. */
  const TokenLifetime: int := 24 * 60 * 60

  /** The decoded token payload; `id` and `role` may be missing from a payload. */
  datatype Claims = Claims(id: Option<Id>, email: Option<string>, role: Option<string>)

  /** What the library's `verify` does with a token: return its payload or throw. */
  datatype VerifyOutcome = Verified(payload: Claims) | Threw(message: string)

  /** The environment's `JWT_SECRET` and the library's `verify(token, secret)`. */
  datatype Verifier = Verifier(secretEnv: Option<string>, jwtVerify: (string, string) -> VerifyOutcome)

  /** The ambient cookie store: `cookies()` either throws (outside a request) or yields the `token` cookie. */
  datatype CookieStore = Unavailable | Available(token: Option<string>)

  /** The optional request argument of `getTokenFromCookies`, with its `token` cookie. */
  datatype RequestCookies = NoRequest | Request(token: Option<string>)

  /** A freshly signed token: its payload, the secret it was signed with, issue and expiry times (seconds). */
  datatype SignedToken = SignedToken(payload: Claims, secret: string, issuedAt: int, expiresAt: int)

  /** `process.env.JWT_SECRET || 'default-secret-key'`. */
  function JwtSecret(env: Option<string>): (s: string)
    ensures s != ""
    ensures Truthy(env) ==> s == env.value
  {
    if Truthy(env) then env.value else DefaultSecret
  }

  /** `generateToken`: sign the payload so that it expires 24 hours after `now`. */
  function GenerateToken(payload: Claims, secretEnv: Option<string>, now: int): (t: SignedToken)
    ensures t.payload == payload && t.secret == JwtSecret(secretEnv)
    ensures t.issuedAt == now && t.expiresAt - t.issuedAt == 86400
  {
    SignedToken(payload, JwtSecret(secretEnv), now, now + TokenLifetime)
  }

  /** `verifyToken`: the payload when the library accepts the token, `None` for every failure. */
  function VerifyToken(v: Verifier, token: string): (r: Option<Claims>)
    ensures r.Some? <==> v.jwtVerify(token, JwtSecret(v.secretEnv)).Verified?
    ensures r.Some? ==> r.value == v.jwtVerify(token, JwtSecret(v.secretEnv)).payload
  {
    var secret := JwtSecret(v.secretEnv);
    if secret == "" then None
    else
      match v.jwtVerify(token, secret)
      case Verified(payload) => Some(payload)
      case Threw(_) => None
  }

  /** A non-empty `token` cookie on the request argument. */
  predicate RequestHasToken(request: RequestCookies) {
    request.Request? && Truthy(request.token)
  }

  /** A non-empty `token` cookie in the ambient store. */
  predicate StoreHasToken(store: CookieStore) {
    store.Available? && Truthy(store.token)
  }

  /** `getTokenFromCookies`: the request's cookie first, then the store's; `None` for empty or unavailable. */
  function GetTokenFromCookies(request: RequestCookies, store: CookieStore): (r: Option<string>)
    ensures r.Some? ==> r.value != ""
    ensures RequestHasToken(request) ==> r == request.token
    ensures !RequestHasToken(request) && r.Some? ==> store.Available? && r == store.token
    ensures r.None? <==> !RequestHasToken(request) && !StoreHasToken(store)
  {
    if request.Request? && Truthy(request.token) then request.token
    else
      match store
      case Unavailable => None
      case Available(token) => if Truthy(token) then token else None
  }

  /** `getCurrentUser`: the verified payload of the cookie token, without consulting the user store. */
  function GetCurrentUser(request: RequestCookies, store: CookieStore, v: Verifier): (r: Option<Claims>)
    ensures r.None? <==>
      GetTokenFromCookies(request, store).None? || VerifyToken(v, GetTokenFromCookies(request, store).value).None?
    ensures r.Some? ==> r == VerifyToken(v, GetTokenFromCookies(request, store).value)
  {
    var token := GetTokenFromCookies(request, store);
    if token.None? then None
    else
      var decoded := VerifyToken(v, token.value);
      if decoded.None? then None else decoded
  }

  /** The request cookie takes priority: the store is never consulted when the request carries a token. */
  lemma RequestCookieWins(request: RequestCookies, store1: CookieStore, store2: CookieStore, v: Verifier)
    requires RequestHasToken(request)
    ensures GetTokenFromCookies(request, store1) == GetTokenFromCookies(request, store2)
    ensures GetCurrentUser(request, store1, v) == GetCurrentUser(request, store2, v)
  {
  }
}
