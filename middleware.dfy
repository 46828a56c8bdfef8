/**
 * The request guard that runs before every page: a request for a protected
 * route passes only when it comes from the login or register page, and
 * otherwise is redirected to `/login` carrying the requested path.
 */
module Middleware {
  import opened Wrappers
  import opened Text

  /** The routes that need a session. */
  const ProtectedRoutes: seq<string> := ["/storage", "/activity"]

  /** `protectedRoutes.some(route => pathname.startsWith(route))`. */
  function IsProtectedRoute(pathname: string): (r: bool)
    ensures r <==> exists k :: 0 <= k < |ProtectedRoutes| && StartsWith(pathname, ProtectedRoutes[k])
  {
    StartsWith(pathname, ProtectedRoutes[0]) || StartsWith(pathname, ProtectedRoutes[1])
  }

  /** `referer && (referer.includes("/login") || referer.includes("/register"))`; an absent or empty header is not. */
  function IsFromAuth(referer: Option<string>): (r: bool)
    ensures r <==> referer.Some? && (Contains(referer.value, "/login") || Contains(referer.value, "/register"))
  {
    match referer
    case None => false
    case Some(text) => text != "" && (Contains(text, "/login") || Contains(text, "/register"))
  }

  /** What the guard answers: let the request through, or redirect to `/login?redirect=<path>`. */
  datatype Decision = Next | RedirectToLogin(redirect: string)

  /** `middleware`. */
  function Decide(pathname: string, referer: Option<string>): (r: Decision)
    ensures !IsProtectedRoute(pathname) ==> r == Next
    ensures IsProtectedRoute(pathname) ==> (r == Next <==> IsFromAuth(referer))
    ensures r.RedirectToLogin? ==> r.redirect == pathname
  {
    if IsProtectedRoute(pathname) && !IsFromAuth(referer) then RedirectToLogin(pathname) else Next
  }

  /** A redirect happens exactly for a protected path without an auth referer. */
  lemma RedirectsExactly(pathname: string, referer: Option<string>)
    ensures Decide(pathname, referer).RedirectToLogin? <==> IsProtectedRoute(pathname) && !IsFromAuth(referer)
  {
  }

  /** The prefix test extends: any path continuing a protected one is protected, such as `/storagefoo`. */
  lemma ProtectionExtends(pathname: string, suffix: string)
    requires IsProtectedRoute(pathname)
    ensures IsProtectedRoute(pathname + suffix)
  {
    if StartsWith(pathname, ProtectedRoutes[0]) {
      StartsWithExtend(pathname, suffix, ProtectedRoutes[0]);
    } else {
      StartsWithExtend(pathname, suffix, ProtectedRoutes[1]);
    }
  }

  /** `/storagefoo` is protected although it is not the storage page. */
  lemma StorageFooIsProtected()
    ensures IsProtectedRoute("/storagefoo")
  {
    ProtectionExtends("/storage", "foo");
  }

  /** The landing page and the auth pages are never redirected. */
  lemma PublicPagesPass(referer: Option<string>)
    ensures Decide("/", referer) == Next
    ensures Decide("/login", referer) == Next
    ensures Decide("/register", referer) == Next
  {
    MismatchNotPrefix("/login", "/storage", 1);
    MismatchNotPrefix("/login", "/activity", 1);
    MismatchNotPrefix("/register", "/storage", 1);
    MismatchNotPrefix("/register", "/activity", 1);
  }

  /**
   * The matcher keeps the guard away from paths that continue `/` with `api`,
   * `_next/static`, `_next/image` or `favicon.ico`; none of them is
   * protected, so leaving them out changes no decision.
   */
  lemma UnmatchedPathsAreNotProtected(rest: string)
    requires || StartsWith(rest, "api") || StartsWith(rest, "_next/static")
             || StartsWith(rest, "_next/image") || StartsWith(rest, "favicon.ico")
    ensures !IsProtectedRoute("/" + rest)
  {
    var path := "/" + rest;
    assert path[1] == rest[0];
    MismatchNotPrefix(path, "/storage", 1);
    if StartsWith(rest, "api") {
      assert path[2] == rest[1] == 'p';
      MismatchNotPrefix(path, "/activity", 2);
    } else {
      MismatchNotPrefix(path, "/activity", 1);
    }
  }
}
