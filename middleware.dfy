/** The edge middleware of middleware.ts: a dashboard path requested without a
    session cookie is redirected to the login page, carrying the original path;
    everything else passes through. Only the cookie's presence is checked. */
module Middleware {
  import Auth

  const SESSION_COOKIE: string := "sportcamp_session"
  const DashboardPrefix: string := "/dashboard"

  /** A request URL: its path and its query parameters. */
  datatype Url = Url(pathname: string, query: map<string, string>)

  datatype Decision = Next | Redirect(target: Url)

  /** `isDashboardRoute`: `pathname.startsWith("/dashboard")`. */
  predicate IsDashboardRoute(pathname: string) {
    |DashboardPrefix| <= |pathname| && pathname[..|DashboardPrefix|] == DashboardPrefix
  }

  /** The route filter `matcher: ["/dashboard/:path*"]`: `/dashboard` and the paths below it. */
  predicate MatcherSelects(pathname: string) {
    || pathname == DashboardPrefix
    || (IsDashboardRoute(pathname) && |pathname| > |DashboardPrefix| && pathname[|DashboardPrefix|] == '/')
  }

  /** `middleware`: `cookies` holds the request's cookies by name. */
  function Decide(cookies: map<string, string>, url: Url): (d: Decision)
    ensures d.Redirect? <==> SESSION_COOKIE !in cookies && IsDashboardRoute(url.pathname)
    ensures d.Redirect? ==> d.target.pathname == "/login"
                            && d.target.query == url.query["redirect" := url.pathname]
  {
    if SESSION_COOKIE !in cookies && IsDashboardRoute(url.pathname) then
      Redirect(Url("/login", url.query["redirect" := url.pathname]))
    else Next
  }

  /** `isDashboardRoute` is exactly a prefix test. */
  lemma DashboardRouteIsPrefix(pathname: string)
    ensures IsDashboardRoute(pathname) <==> exists rest :: pathname == DashboardPrefix + rest
  {
    if IsDashboardRoute(pathname) {
      assert pathname == DashboardPrefix + pathname[|DashboardPrefix|..];
    }
  }

  /** Whatever the cookie's value, even one that names no live session, the request
      passes; and a path outside the dashboard always passes. */
  lemma PresenceIsEnough(cookies: map<string, string>, url: Url)
    requires SESSION_COOKIE in cookies || !IsDashboardRoute(url.pathname)
    ensures Decide(cookies, url) == Next
  {
  }

  /** Every path the route matcher hands to the middleware passes the prefix test, so
      there the decision depends on the cookie alone. */
  lemma MatchedPathsAreDashboardRoutes(pathname: string)
    requires MatcherSelects(pathname)
    ensures IsDashboardRoute(pathname)
  {
  }

  /** The cookie checked here is the one the session store issues. */
  lemma CookieNameAgreesWithSessionStore()
    ensures SESSION_COOKIE == Auth.SESSION_COOKIE
  {
  }
}
