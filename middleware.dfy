/**
 * The route guard that runs before every page request: paths under
 * "/dashboard" and "/profile" need a session, paths under "/login" and
 * "/register" are for visitors without one.
 *
 * Reading the cookie and decrypting it are outside the model: the cookie
 * is an optional string and `decrypt` says whether a cookie value
 * decrypts to a session payload.
 */
module Middleware {
  import opened Wrappers
  import opened Text

  const PROTECTED_ROUTES: seq<string> := ["/dashboard", "/profile"]
  const PUBLIC_ROUTES: seq<string> := ["/login", "/register"]
  const LOGIN: string := "/login"
  const DASHBOARD: string := "/dashboard"

  /** `NextResponse.next()` or `NextResponse.redirect(new URL(location, ...))`. */
  datatype Response = Next | Redirect(location: string)

  /** `prefixes.some((prefix) => path.startsWith(prefix))`. */
  function SomePrefix(path: string, prefixes: seq<string>): (b: bool)
    ensures b <==> exists i :: 0 <= i < |prefixes| && StartsWith(path, prefixes[i])
    decreases |prefixes|
  {
    if |prefixes| == 0 then false
    else StartsWith(path, prefixes[0]) || SomePrefix(path, prefixes[1..])
  }

  function IsProtectedRoute(path: string): (b: bool)
    ensures b <==> StartsWith(path, "/dashboard") || StartsWith(path, "/profile")
  {
    SomePrefix(path, PROTECTED_ROUTES)
  }

  function IsPublicRoute(path: string): (b: bool)
    ensures b <==> StartsWith(path, "/login") || StartsWith(path, "/register")
  {
    SomePrefix(path, PUBLIC_ROUTES)
  }

  /** Whether the request carries a session: an empty cookie is falsy and is
      not decrypted, and a missing cookie gives a null session. */
  function HasSession(cookie: Option<string>, decrypt: string -> bool): (b: bool)
    ensures cookie.None? ==> !b
    ensures cookie == Some("") ==> !b
    ensures b <==> cookie.Some? && cookie.value != "" && decrypt(cookie.value)
  {
    match cookie
    case None => false
    case Some(value) => if value == "" then false else decrypt(value)
  }

  /** The decision of `middleware` for a request to `path`. */
  function Guard(path: string, cookie: Option<string>, decrypt: string -> bool): (r: Response)
    ensures r == Redirect(LOGIN) <==> IsProtectedRoute(path) && !HasSession(cookie, decrypt)
    ensures r == Redirect(DASHBOARD) <==> IsPublicRoute(path) && HasSession(cookie, decrypt)
    ensures r == Next <==>
      (IsProtectedRoute(path) ==> HasSession(cookie, decrypt)) && (IsPublicRoute(path) ==> !HasSession(cookie, decrypt))
  {
    var isProtectedRoute := IsProtectedRoute(path);
    var isPublicRoute := IsPublicRoute(path);
    var session := HasSession(cookie, decrypt);
    if isProtectedRoute && !session then Redirect(LOGIN)
    else if isPublicRoute && session then Redirect(DASHBOARD)
    else Next
  }

  /** A path with a given prefix shares its second character. */
  lemma SecondCharOfPrefix(path: string, prefix: string)
    requires |prefix| >= 2
    ensures StartsWith(path, prefix) ==> path[1] == prefix[1]
  {
    if StartsWith(path, prefix) {
      assert path[1] == path[..|prefix|][1];
    }
  }

  /** No path is both protected and public: the second characters of the
      four prefixes ('d', 'p' against 'l', 'r') already differ. */
  lemma RouteClassesDisjoint(path: string)
    ensures !(IsProtectedRoute(path) && IsPublicRoute(path))
  {
    SecondCharOfPrefix(path, "/dashboard");
    SecondCharOfPrefix(path, "/profile");
    SecondCharOfPrefix(path, "/login");
    SecondCharOfPrefix(path, "/register");
  }

  /** A redirect never leads to another redirect under the same cookie:
      "/login" is public and "/dashboard" is protected. */
  lemma RedirectTargetPasses(path: string, cookie: Option<string>, decrypt: string -> bool)
    requires Guard(path, cookie, decrypt).Redirect?
    ensures Guard(Guard(path, cookie, decrypt).location, cookie, decrypt) == Next
  {
    RouteClassesDisjoint(LOGIN);
    RouteClassesDisjoint(DASHBOARD);
    assert StartsWith(LOGIN, "/login");
    assert StartsWith(DASHBOARD, "/dashboard");
  }

  /** Without a session nothing is ever sent to the dashboard, and with one
      nothing is ever sent to the login page. */
  lemma RedirectMatchesSession(path: string, cookie: Option<string>, decrypt: string -> bool)
    ensures HasSession(cookie, decrypt) ==> Guard(path, cookie, decrypt) != Redirect(LOGIN)
    ensures !HasSession(cookie, decrypt) ==> Guard(path, cookie, decrypt) != Redirect(DASHBOARD)
  {
  }
}
