/** The request middleware: pages under /dashboard need a session cookie whose
    decoded JSON names a user; the login page and the home page send a
    signed-in user on to the dashboard. Decoding the cookie (base64, then
    JSON.parse) is the `readSession` parameter: None where it throws. */
module Middleware {
  import opened Outcomes
  import opened Text
  import opened JsValues

  datatype Decision = Next | Redirect(target: string)

  const Login := "/login"
  const Dashboard := "/dashboard"

  /** `protectedRoutes.some(route => pathname.startsWith(route))` for the one route. */
  predicate Protected(pathname: string) {
    StartsWith(pathname, Dashboard)
  }

  /** The cookie is present, non-empty, decodes, and names a user: a truthy
      `username`. A decoded null throws on `.username`, which also fails. */
  predicate SignedIn(cookie: Option<string>, readSession: string -> Option<JsValue>) {
    cookie.Some? && cookie.value != ""
    && readSession(cookie.value).Some?
    && Member(readSession(cookie.value).value, "username").Ok?
    && Truthy(Member(readSession(cookie.value).value, "username").value)
  }

  /** `middleware`, step by step as written: the protected-route block, then
      the block for "/" and "/login". */
  function Decide(pathname: string, cookie: Option<string>, readSession: string -> Option<JsValue>): Decision {
    if Protected(pathname) && (cookie.None? || cookie.value == "") then Redirect(Login)
    else if Protected(pathname) && readSession(cookie.value).None? then Redirect(Login)
    else if Protected(pathname) && Member(readSession(cookie.value).value, "username").Err? then Redirect(Login)
    else if Protected(pathname) && !Truthy(Member(readSession(cookie.value).value, "username").value) then Redirect(Login)
    else if pathname == Login || pathname == "/" then
      if cookie.None? || cookie.value == "" then Next
      else match readSession(cookie.value)
        case None => Next
        case Some(data) =>
          match Member(data, "username")
          case Err(_) => Next
          case Ok(name) =>
            if !Truthy(name) then Next
            else if pathname == "/" then Redirect(Dashboard)
            else Redirect(Dashboard)
    else Next
  }

  /** "favicon", any one character, "ico": the pattern's unescaped `.`, which
      matches every character but a line terminator. */
  predicate FaviconLike(s: string) {
    |s| >= 11 && s[..7] == "favicon" && s[8..11] == "ico"
    && s[7] != '\n' && s[7] != '\r' && s[7] as int != 0x2028 && s[7] as int != 0x2029
  }

  /** The matcher `/((?!api|_next/static|_next/image|favicon.ico).*)`: every
      path except those whose text after the first "/" begins with one of the
      excluded words. */
  predicate Matched(pathname: string) {
    |pathname| >= 1 && pathname[0] == '/'
    && var rest := pathname[1..];
    !StartsWith(rest, "api") && !StartsWith(rest, "_next/static") && !StartsWith(rest, "_next/image")
    && !FaviconLike(rest)
  }

  /** What a request meets: the middleware where the matcher selects the
      path, straight through otherwise. */
  function Handle(pathname: string, cookie: Option<string>, readSession: string -> Option<JsValue>): (d: Decision)
    ensures d.Redirect? ==> d.target in {Login, Dashboard}
  {
    if Matched(pathname) then Decide(pathname, cookie, readSession) else Next
  }

  // ---------------------------------------------------------------------------
  // Properties

  /** The middleware only ever redirects to the login page or the dashboard. */
  lemma RedirectTargets(pathname: string, cookie: Option<string>, readSession: string -> Option<JsValue>)
    ensures Decide(pathname, cookie, readSession).Redirect? ==>
              Decide(pathname, cookie, readSession).target in {Login, Dashboard}
  {
  }

  /** A protected page is let through exactly for a signed-in user, and
      otherwise sent to the login page. */
  lemma ProtectedNeedsSession(pathname: string, cookie: Option<string>, readSession: string -> Option<JsValue>)
    requires Protected(pathname)
    ensures Decide(pathname, cookie, readSession) == if SignedIn(cookie, readSession) then Next else Redirect(Login)
  {
  }

  /** Protection is a prefix test on the text: "/dashboardx" is protected too. */
  lemma PrefixProtects()
    ensures Protected("/dashboard") && Protected("/dashboard/user") && Protected("/dashboardx")
    ensures !Protected("/login") && !Protected("/")
  {
    assert "/dashboardx"[..10] == Dashboard;
    assert "/dashboard/user"[..10] == Dashboard;
  }

  /** The home and login pages send a signed-in user to the dashboard and let
      everyone else through. */
  lemma EntryPages(pathname: string, cookie: Option<string>, readSession: string -> Option<JsValue>)
    requires pathname in {Login, "/"}
    ensures Decide(pathname, cookie, readSession) == if SignedIn(cookie, readSession) then Redirect(Dashboard) else Next
  {
    assert !Protected(pathname);
  }

  /** Every other page passes untouched. */
  lemma OtherPagesPass(pathname: string, cookie: Option<string>, readSession: string -> Option<JsValue>)
    requires !Protected(pathname) && pathname !in {Login, "/"}
    ensures Decide(pathname, cookie, readSession) == Next
  {
  }

  /** The API, Next's static files and the favicon bypass the middleware; the
      dashboard and the login page do not. */
  lemma MatcherExclusions(suffix: string, cookie: Option<string>, readSession: string -> Option<JsValue>)
    ensures Handle("/api" + suffix, cookie, readSession) == Next
    ensures Handle("/_next/static" + suffix, cookie, readSession) == Next
    ensures Matched(Dashboard) && Matched(Login) && Matched("/")
    ensures !Matched("/favicon.ico")
  {
    var a := "/api" + suffix;
    assert a[1..][..3] == "api";
    var s := "/_next/static" + suffix;
    assert s[1..][..12] == "_next/static";
    assert "/favicon.ico"[1..][..7] == "favicon";
    assert "/favicon.ico"[1..][8..11] == "ico";
    assert Dashboard[1..][..3] != "api" by { assert Dashboard[1] == 'd'; }
    assert Login[1..][..3] != "api" by { assert Login[1] == 'l'; }
    assert Dashboard[1..][..7] != "favicon" by { assert Dashboard[1] == 'd'; }
  }
}
