/**
 * The Next.js middleware (middleware.ts): from the request path and the `authToken` and
 * `userRole` cookies it either lets the request through or redirects it. A cookie that
 * is missing is `None`.
 */
module RouteGuard {
  import opened Wrappers
  import opened Text

  /** Let the request through, or redirect to `path`, optionally with a `redirect` query
      parameter carrying the page that was asked for. */
  datatype Decision = Next | Redirect(path: string, redirectParam: Option<string>)

  /** A cookie value counts only when present and non-empty. */
  predicate HasToken(token: Option<string>) {
    token.Some? && token.value != []
  }

  predicate IsAdminRoute(pathname: string) {
    StartsWith(pathname, "/admin") && !StartsWith(pathname, "/admin/login")
  }

  predicate IsPublicProtectedRoute(pathname: string) {
    StartsWith(pathname, "/public") && !StartsWith(pathname, "/public/login")
  }

  /** A signed-in visitor opening the login page of their own role. */
  predicate LoginPageOfOwnRole(pathname: string, token: Option<string>, role: Option<string>) {
    HasToken(token)
    && ((pathname == "/admin/login" && role == Some("admin")) || (pathname == "/public/login" && role == Some("user")))
  }

  /** `middleware`: the guards in the order the source checks them. A redirect carries the
      asked-for path only when there is no token; everything outside the protected areas
      and the own-role login pages is let through. */
  function Middleware(pathname: string, token: Option<string>, role: Option<string>): (d: Decision)
    ensures d.Next? <==>
      && !LoginPageOfOwnRole(pathname, token, role)
      && (IsAdminRoute(pathname) ==> HasToken(token) && role == Some("admin"))
      && (IsPublicProtectedRoute(pathname) ==> HasToken(token) && role == Some("user"))
    ensures d.Redirect? ==>
      d.path in ["/admin/view-booking", "/public/dashboard", "/admin/login", "/public/login"]
    ensures d.Redirect? && d.redirectParam.Some? ==> d.redirectParam.value == pathname && !HasToken(token)
  {
    var isAdminRoute := IsAdminRoute(pathname);
    var isPublicProtectedRoute := IsPublicProtectedRoute(pathname);
    var isPublicLoginPage := pathname == "/public/login";
    var isAdminLoginPage := pathname == "/admin/login";
    if HasToken(token) && isAdminLoginPage && role == Some("admin") then Redirect("/admin/view-booking", None)
    else if HasToken(token) && isPublicLoginPage && role == Some("user") then Redirect("/public/dashboard", None)
    else if isAdminRoute && !HasToken(token) then Redirect("/admin/login", Some(pathname))
    else if isAdminRoute && role != Some("admin") then Redirect("/admin/login", None)
    else if isPublicProtectedRoute && !HasToken(token) then Redirect("/public/login", Some(pathname))
    else if isPublicProtectedRoute && role != Some("user") then Redirect("/public/login", None)
    else Next
  }

  /** The two areas and the two login pages are told apart: no path is both an admin route
      and a public one, and neither login page is protected. */
  lemma {:induction false} RoutesAreDisjoint(pathname: string)
    ensures !(IsAdminRoute(pathname) && IsPublicProtectedRoute(pathname))
    ensures !IsAdminRoute("/admin/login") && !IsPublicProtectedRoute("/admin/login")
    ensures !IsAdminRoute("/public/login") && !IsPublicProtectedRoute("/public/login")
  {
    PrefixChar(pathname, "/admin", 1);
    PrefixChar(pathname, "/public", 1);
    NotPrefixAt("/admin/login", "/public", 1);
    NotPrefixAt("/public/login", "/admin", 1);
  }

  /** A string does not start with `p` when they differ at an index both have. */
  lemma {:induction false} NotPrefixAt(s: string, p: string, k: nat)
    requires k < |s| && k < |p| && s[k] != p[k]
    ensures !StartsWith(s, p)
  {
    PrefixChar(s, p, k);
  }

  /** A string that starts with `p` agrees with `p` on `p`'s indices. */
  lemma {:induction false} PrefixChar(s: string, p: string, k: nat)
    requires k < |p|
    ensures StartsWith(s, p) ==> s[k] == p[k]
  {
  }

  /** Signed in on the login page of one's own role: sent on to that role's start page. */
  lemma {:induction false} SignedInLoginPageRedirects(token: Option<string>)
    requires HasToken(token)
    ensures Middleware("/admin/login", token, Some("admin")) == Redirect("/admin/view-booking", None)
    ensures Middleware("/public/login", token, Some("user")) == Redirect("/public/dashboard", None)
  {
  }

  /** An admin route: no token sends to the admin login remembering the path; a token of
      another role sends there without it; an admin passes. */
  lemma {:induction false} AdminRouteGuard(pathname: string, token: Option<string>, role: Option<string>)
    requires IsAdminRoute(pathname)
    ensures !HasToken(token) ==> Middleware(pathname, token, role) == Redirect("/admin/login", Some(pathname))
    ensures HasToken(token) && role != Some("admin") ==> Middleware(pathname, token, role) == Redirect("/admin/login", None)
    ensures HasToken(token) && role == Some("admin") ==> Middleware(pathname, token, role) == Next
  {
    RoutesAreDisjoint(pathname);
  }

  /** A protected public route: the same, with the public login page and the user role. */
  lemma {:induction false} PublicRouteGuard(pathname: string, token: Option<string>, role: Option<string>)
    requires IsPublicProtectedRoute(pathname)
    ensures !HasToken(token) ==> Middleware(pathname, token, role) == Redirect("/public/login", Some(pathname))
    ensures HasToken(token) && role != Some("user") ==> Middleware(pathname, token, role) == Redirect("/public/login", None)
    ensures HasToken(token) && role == Some("user") ==> Middleware(pathname, token, role) == Next
  {
    RoutesAreDisjoint(pathname);
  }

  /** No redirect loops: following a redirect with the same cookies is let through. */
  lemma {:induction false} NoRedirectLoop(pathname: string, token: Option<string>, role: Option<string>)
    ensures var d := Middleware(pathname, token, role);
      d.Redirect? ==> Middleware(d.path, token, role) == Next
  {
    var d := Middleware(pathname, token, role);
    if d == Redirect("/admin/view-booking", None) {
      StartPagesPass(token, role);
    } else if d == Redirect("/public/dashboard", None) {
      StartPagesPass(token, role);
    } else if d.Redirect? && d.path == "/admin/login" {
      LoginPagesPass(token, role);
    } else if d.Redirect? && d.path == "/public/login" {
      LoginPagesPass(token, role);
    }
  }

  /** The start pages a signed-in visitor is sent to are open to their role. */
  lemma {:induction false} StartPagesPass(token: Option<string>, role: Option<string>)
    ensures HasToken(token) && role == Some("admin") ==> Middleware("/admin/view-booking", token, role) == Next
    ensures HasToken(token) && role == Some("user") ==> Middleware("/public/dashboard", token, role) == Next
  {
    assert StartsWith("/admin/view-booking", "/admin") && StartsWith("/public/dashboard", "/public");
    NotPrefixAt("/admin/view-booking", "/admin/login", 7);
    NotPrefixAt("/public/dashboard", "/public/login", 8);
    NotPrefixAt("/admin/view-booking", "/public", 1);
    NotPrefixAt("/public/dashboard", "/admin", 1);
  }

  /** A login page is let through unless the visitor is signed in with that page's role. */
  lemma {:induction false} LoginPagesPass(token: Option<string>, role: Option<string>)
    ensures !(HasToken(token) && role == Some("admin")) ==> Middleware("/admin/login", token, role) == Next
    ensures !(HasToken(token) && role == Some("user")) ==> Middleware("/public/login", token, role) == Next
  {
    RoutesAreDisjoint("/admin/login");
  }

  /** Paths under a login page's prefix are not protected: they pass without a token. */
  lemma {:induction false} LoginPrefixIsUnguarded(rest: string, role: Option<string>)
    ensures Middleware("/admin/login" + rest, None, role) == Next
    ensures Middleware("/public/login" + rest, None, role) == Next
  {
    var a, p := "/admin/login" + rest, "/public/login" + rest;
    assert a[..|"/admin/login"|] == "/admin/login" && p[..|"/public/login"|] == "/public/login";
    assert a[..|"/public"|] == "/admin/" && p[..|"/admin"|] == "/publi";
  }
}
