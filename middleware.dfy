/**
 * The request middleware (src/middleware.ts): which requests pass through and
 * which are redirected, given whether the session lookup finds a user.
 */
module Middleware {
  import Text

  /** The parts of the request URL a redirect clones. */
  datatype Url = Url(origin: string, pathname: string, search: string, hash: string)

  /** Pass through (with or without the session lookup and its cookie refresh),
      or redirect to a URL. */
  datatype Decision = PassThrough(sessionLookedUp: bool) | Redirect(to: Url)

  const CallbackPath: string := "/auth/callback"

  /** The login and auth pages: a prefix test, so "/authors" and "/login/x" are included. */
  predicate IsAuthRoute(pathname: string)
  {
    Text.StartsWith(pathname, "/login") || Text.StartsWith(pathname, "/auth")
  }

  /** The decision for a request to `url`; `hasUser` is what the session lookup
      would find, and is not consulted for the OAuth callback. */
  function Decide(url: Url, hasUser: bool): (d: Decision)
    ensures d.Redirect? ==> d.to == url.(pathname := d.to.pathname)
    ensures url.pathname == CallbackPath <==> d == PassThrough(false)
  {
    if url.pathname == CallbackPath then PassThrough(false)
    else if !hasUser && !IsAuthRoute(url.pathname) then Redirect(url.(pathname := "/login"))
    else if hasUser && url.pathname == "/login" then Redirect(url.(pathname := "/"))
    else PassThrough(true)
  }

  /** A redirect goes to "/login" exactly for a visitor outside the auth
      routes, and to "/" exactly for a signed-in user on "/login". */
  lemma RedirectTable(url: Url, hasUser: bool)
    ensures var d := Decide(url, hasUser);
      (d.Redirect? && d.to.pathname == "/login") <==> !hasUser && !IsAuthRoute(url.pathname)
    ensures var d := Decide(url, hasUser);
      (d.Redirect? && d.to.pathname == "/") <==> hasUser && url.pathname == "/login"
  {
    assert Text.StartsWith(CallbackPath, "/auth");
  }

  /** Following a redirect with the same session passes through: no redirect loops. */
  lemma NoRedirectLoop(url: Url, hasUser: bool)
    requires Decide(url, hasUser).Redirect?
    ensures Decide(Decide(url, hasUser).to, hasUser).PassThrough?
  {
    assert Text.StartsWith("/login", "/login");
  }

  /** The prefix test lets a visitor reach "/authors" and "/login/x". */
  lemma PrefixQuirks(url: Url)
    ensures url.pathname == "/authors" ==> Decide(url, false) == PassThrough(true)
    ensures url.pathname == "/login/x" ==> Decide(url, false) == PassThrough(true)
    ensures url.pathname == "/login/x" ==> Decide(url, true) == PassThrough(true)
  {
    assert Text.StartsWith("/authors", "/auth");
    assert Text.StartsWith("/login/x", "/login");
  }
}
