/**
 * The edge middleware: a pure decision from the request path and the
 * presence of a `token` cookie to "redirect to /login", "redirect to
 * /dashboard" (both with 307) or "pass through". The token is never verified here.
 */
module Middleware {
  import opened Common

  /** Paths that need no authentication. */
  const PublicPaths: seq<string> := ["/", "/login", "/register"]

  /** The callback of `publicPaths.some(...)`: equal to `path`, or below it unless `path` is the root. */
  predicate MatchesPublic(path: string, pathname: string) {
    pathname == path || (path != "/" && StartsWith(pathname, path + "/"))
  }

  predicate IsPublicPath(pathname: string) {
    exists i :: 0 <= i < |PublicPaths| && MatchesPublic(PublicPaths[i], pathname)
  }

  predicate IsApiPath(pathname: string) {
    StartsWith(pathname, "/api/")
  }

  /** `request.cookies.get('token')?.value` is truthy. */
  predicate HasToken(token: Option<string>) {
    Truthy(token)
  }

  datatype Decision =
    | RedirectToLogin(redirectedFrom: string, status: int)
    | RedirectToDashboard(status: int)
    | PassThrough

  /** The status `NextResponse.redirect` answers with when none is given: 307 Temporary Redirect. */
  const DefaultRedirectStatus := 307

  /**
   * The two redirect conditions, tested in order. Both redirects are
   * temporary (307): the login one by the framework's default, the
   * dashboard one explicitly.
   */
  function Decide(pathname: string, token: Option<string>): (d: Decision)
    ensures d.RedirectToLogin? <==> !HasToken(token) && !IsPublicPath(pathname) && !IsApiPath(pathname)
    ensures d.RedirectToLogin? ==> d.redirectedFrom == pathname
    ensures d.RedirectToDashboard? <==> HasToken(token) && (pathname == "/login" || pathname == "/register")
    ensures !d.PassThrough? ==> d.status == 307
  {
    if !HasToken(token) && !IsPublicPath(pathname) && !IsApiPath(pathname) then
      RedirectToLogin(pathname, DefaultRedirectStatus)
    else if HasToken(token) && (pathname == "/login" || pathname == "/register") then
      RedirectToDashboard(307)
    else
      PassThrough
  }

  /** The public paths are exactly `/`, `/login`, `/register` and everything below the last two. */
  lemma {:induction false} PublicPathsExactly(p: string)
    ensures IsPublicPath(p) <==>
      p == "/" || p == "/login" || p == "/register" || StartsWith(p, "/login/") || StartsWith(p, "/register/")
  {
    assert PublicPaths[0] == "/" && PublicPaths[1] == "/login" && PublicPaths[2] == "/register";
    assert "/login" + "/" == "/login/";
    assert "/register" + "/" == "/register/";
    if p == "/" { assert MatchesPublic(PublicPaths[0], p); }
    if p == "/login" || StartsWith(p, "/login/") { assert MatchesPublic(PublicPaths[1], p); }
    if p == "/register" || StartsWith(p, "/register/") { assert MatchesPublic(PublicPaths[2], p); }
  }

  /** The root matches only itself and `/loginx` is not under `/login`. */
  lemma PublicPathExamples()
    ensures !IsPublicPath("/loginx")
    ensures !IsPublicPath("/dashboard")
    ensures IsPublicPath("/login/reset")
    ensures !IsPublicPath("/registered")
  {
    PublicPathsExactly("/loginx");
    assert "/loginx"[..7][6] != "/login/"[6];
    PublicPathsExactly("/dashboard");
    assert "/dashboard"[..7][1] != "/login/"[1];
    assert "/dashboard"[..10][1] != "/register/"[1];
    PublicPathsExactly("/login/reset");
    PublicPathsExactly("/registered");
    assert "/registered"[..10][9] != "/register/"[9];
  }

  /** A request is sent to /login exactly when it has no token and its path is neither public nor an API path. */
  lemma LoginRedirectExactly(p: string, token: Option<string>)
    ensures Decide(p, token).RedirectToLogin? <==> !HasToken(token) && !IsPublicPath(p) && !IsApiPath(p)
    ensures Decide(p, token).RedirectToLogin? ==> Decide(p, token).redirectedFrom == p
    ensures Decide(p, token).RedirectToLogin? ==> Decide(p, token).status == 307
  {
  }

  /** API paths are never redirected to /login. */
  lemma ApiPathsNotRedirectedToLogin(p: string, token: Option<string>)
    requires IsApiPath(p)
    ensures !Decide(p, token).RedirectToLogin?
  {
  }

  /** A request is sent to /dashboard (307) exactly when it has a token and targets /login or /register itself. */
  lemma DashboardRedirectExactly(p: string, token: Option<string>)
    ensures Decide(p, token).RedirectToDashboard? <==> HasToken(token) && (p == "/login" || p == "/register")
    ensures Decide(p, token).RedirectToDashboard? ==> Decide(p, token).status == 307
  {
  }

  /** With a token, sub-paths of the sign-in pages pass through. */
  lemma SubPathsPassWithToken(token: Option<string>)
    requires HasToken(token)
    ensures Decide("/login/x", token) == PassThrough
    ensures Decide("/register/x", token) == PassThrough
  {
    PublicPathsExactly("/login/x");
    PublicPathsExactly("/register/x");
  }

  /** Only the presence of a token matters, never its value. */
  lemma OnlyTokenPresenceMatters(p: string, t1: Option<string>, t2: Option<string>)
    requires HasToken(t1) == HasToken(t2)
    ensures Decide(p, t1) == Decide(p, t2)
  {
  }

  /** A public path is never redirected to /login, with or without a token. */
  lemma PublicPathsNeverToLogin(p: string, token: Option<string>)
    requires p == "/" || p == "/login" || p == "/register" || StartsWith(p, "/login/") || StartsWith(p, "/register/")
    ensures !Decide(p, token).RedirectToLogin?
  {
    PublicPathsExactly(p);
  }
}
