/**
 * The request middleware (src/middleware.js): which paths need a session,
 * which are for signed-out visitors only, and where each request goes.
 */
module RouteGuard {
  import opened Text

  const ProtectedRoutes: seq<string> := ["/dashboard", "/profile", "/orders", "/admin"]
  const AuthRoutes: seq<string> := ["/login", "/register", "/forgot-password", "/reset-password"]

  /** `routes.some(route => pathname.startsWith(route))`. */
  predicate MatchesAny(pathname: string, routes: seq<string>)
  {
    exists i :: 0 <= i < |routes| && StartsWith(pathname, routes[i])
  }

  predicate IsProtected(pathname: string) { MatchesAny(pathname, ProtectedRoutes) }
  predicate IsAuthRoute(pathname: string) { MatchesAny(pathname, AuthRoutes) }

  /** What the middleware answers. */
  datatype Decision =
    | RedirectToLogin(redirectTo: string)  // to /login with `redirectTo` set to the pathname
    | RedirectToDashboard
    | PassThrough

  /** `middleware(req)`, given the request's pathname and whether a session exists. */
  function Route(pathname: string, hasSession: bool): (d: Decision)
    ensures d.RedirectToLogin? <==> IsProtected(pathname) && !hasSession
    ensures d.RedirectToLogin? ==> d.redirectTo == pathname
    ensures d == RedirectToDashboard <==> IsAuthRoute(pathname) && hasSession
    ensures d == PassThrough <==> !(IsProtected(pathname) && !hasSession) && !(IsAuthRoute(pathname) && hasSession)
  {
    PrefixListsDisjoint(pathname);
    if IsProtected(pathname) && !hasSession then RedirectToLogin(pathname)
    else if IsAuthRoute(pathname) && hasSession then RedirectToDashboard
    else PassThrough
  }

  /** No path matches both lists: their entries differ at the second character. */
  lemma PrefixListsDisjoint(pathname: string)
    ensures !(IsProtected(pathname) && IsAuthRoute(pathname))
  {
    if IsProtected(pathname) && IsAuthRoute(pathname) {
      var i :| 0 <= i < |ProtectedRoutes| && StartsWith(pathname, ProtectedRoutes[i]);
      var j :| 0 <= j < |AuthRoutes| && StartsWith(pathname, AuthRoutes[j]);
      SecondChar(pathname, ProtectedRoutes[i], AuthRoutes[j]);
      assert false;
    }
  }

  lemma SecondChar(pathname: string, r1: string, r2: string)
    requires |r1| >= 2 && |r2| >= 2
    requires StartsWith(pathname, r1) && StartsWith(pathname, r2)
    ensures r1[1] == r2[1]
  {
    assert pathname[..|r1|][1] == r1[1];
    assert pathname[..|r2|][1] == r2[1];
  }

  /** The login redirect only happens off the auth pages; the two redirects never compete. */
  lemma AtMostOneRedirect(pathname: string, hasSession: bool)
    ensures Route(pathname, hasSession).RedirectToLogin? ==> !IsAuthRoute(pathname)
    ensures Route(pathname, hasSession) == RedirectToDashboard ==> !IsProtected(pathname)
  {
    PrefixListsDisjoint(pathname);
  }

  /** A protected path with a session, or an auth path without one, passes through. */
  lemma NoRedirectCases(pathname: string)
    ensures IsProtected(pathname) ==> Route(pathname, true) == PassThrough
    ensures IsAuthRoute(pathname) ==> Route(pathname, false) == PassThrough
  {
    PrefixListsDisjoint(pathname);
  }

  /** Matching is by plain prefix, so '/administrator' and '/orders-archive' are protected too. */
  lemma PrefixMatchIsLoose()
    ensures IsProtected("/administrator")
    ensures IsProtected("/orders-archive")
    ensures !IsProtected("/products")
    ensures Route("/administrator", false) == RedirectToLogin("/administrator")
  {
    assert StartsWith("/administrator", ProtectedRoutes[3]);
    assert StartsWith("/orders-archive", ProtectedRoutes[2]);
    forall i | 0 <= i < |ProtectedRoutes|
      ensures !StartsWith("/products", ProtectedRoutes[i])
    {
      var r := ProtectedRoutes[i];
      var k := if i == 1 then 4 else 1;
      assert "/products"[k] != r[k];
    }
  }
}
