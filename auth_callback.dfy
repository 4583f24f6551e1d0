/**
 * The OAuth callback route (src/app/auth/callback/route.ts): where the browser
 * is sent after the identity provider returns, given the query parameters and
 * the outcome of exchanging the code for a session.
 */
module AuthCallback {
  import opened Wrappers
  import Text

  /** The query parameters the route reads; `None` when a parameter is missing. */
  datatype Query = Query(code: Option<string>, next: Option<string>, error: Option<string>, errorDescription: Option<string>)

  /** The redirect target, and whether the code was exchanged on the way. */
  datatype Outcome = Outcome(location: string, exchanged: bool)

  /** JavaScript truthiness of a parameter: present and not empty. */
  predicate Truthy(p: Option<string>)
  {
    p.Some? && p.value != ""
  }

  const ErrorPrefix: string := "/login?error="

  /** The route. `encode` stands for `encodeURIComponent`; `exchange(code)` is
      the session exchange, `None` on success or the failure's message. */
  function Callback(origin: string, q: Query, encode: string -> string, exchange: string -> Option<string>): (r: Outcome)
    ensures Text.StartsWith(r.location, origin)
    ensures r.exchanged <==> !Truthy(q.error) && Truthy(q.code)
  {
    if Truthy(q.error) then
      var message := if Truthy(q.errorDescription) then encode(q.errorDescription.value) else "auth_failed";
      Outcome(origin + ErrorPrefix + message, false)
    else if !Truthy(q.code) then
      Outcome(origin + ErrorPrefix + "no_code", false)
    else
      var failure := exchange(q.code.value);
      if failure.None? then Outcome(origin + OrElse(q.next, "/"), true)
      else Outcome(origin + ErrorPrefix + encode(failure.value), true)
  }

  /** A reported error wins over a code: the login page gets the encoded
      description, or "auth_failed" without one. */
  lemma ErrorFirst(origin: string, q: Query, encode: string -> string, exchange: string -> Option<string>)
    requires Truthy(q.error)
    ensures Callback(origin, q, encode, exchange).location
         == origin + ErrorPrefix + (if Truthy(q.errorDescription) then encode(q.errorDescription.value) else "auth_failed")
  {
  }

  /** After a successful exchange the browser goes to `next`, or to "/" only
      when `next` is missing (an empty `next` leads to the bare origin). */
  lemma SuccessGoesNext(origin: string, q: Query, encode: string -> string, exchange: string -> Option<string>)
    requires !Truthy(q.error) && Truthy(q.code) && exchange(q.code.value).None?
    ensures Callback(origin, q, encode, exchange).location == origin + OrElse(q.next, "/")
    ensures q.next == Some("") ==> Callback(origin, q, encode, exchange).location == origin
  {
    assert origin + "" == origin;
  }

  /** Without a code (and without an error parameter) the login page is told "no_code"
      and nothing is exchanged. */
  lemma MissingCode(origin: string, q: Query, encode: string -> string, exchange: string -> Option<string>)
    requires !Truthy(q.error) && !Truthy(q.code)
    ensures Callback(origin, q, encode, exchange) == Outcome(origin + ErrorPrefix + "no_code", false)
  {
  }

  /** A failed exchange sends the encoded failure message to the login page. */
  lemma FailureReported(origin: string, q: Query, encode: string -> string, exchange: string -> Option<string>)
    requires !Truthy(q.error) && Truthy(q.code) && exchange(q.code.value).Some?
    ensures Callback(origin, q, encode, exchange).location == origin + ErrorPrefix + encode(exchange(q.code.value).value)
  {
  }

  // ---------------------------------------------------------------------------
  // Where the redirect may lead

  /** A path on the same site: it starts with one "/" that is not followed by a
      second "/" or a "\" (which browsers read as the start of another host). */
  predicate LocalPath(p: string)
  {
    |p| >= 1 && p[0] == '/' && (|p| == 1 || (p[1] != '/' && p[1] != '\\'))
  }

  /** The location is `origin` followed by a local path, so the browser stays on `origin`. */
  predicate StaysOnOrigin(location: string, origin: string)
  {
    |origin| < |location| && location[..|origin|] == origin && LocalPath(location[|origin|..])
  }

  lemma StaysOnOriginOf(origin: string, path: string)
    requires LocalPath(path)
    ensures StaysOnOrigin(origin + path, origin)
  {
    assert (origin + path)[..|origin|] == origin;
    assert (origin + path)[|origin|..] == path;
  }

  /** As written, `next` is appended to the origin unchecked: `?next=.evil.com` on
      `https://app.cl` sends the signed-in browser to the host `app.cl.evil.com`. */
  lemma OpenRedirect()
    ensures var r := Callback("https://app.cl", Query(Some("c"), Some(".evil.com"), None, None),
                              (m: string) => m, (c: string) => None);
      r.location == "https://app.cl.evil.com" && !StaysOnOrigin(r.location, "https://app.cl")
  {
    var r := Callback("https://app.cl", Query(Some("c"), Some(".evil.com"), None, None),
                      (m: string) => m, (c: string) => None);
    assert r.location == "https://app.cl" + ".evil.com";
    assert r.location[|"https://app.cl"|] == '.';
  }

  /** The `next` the route should follow: the parameter when it is a local path, "/" otherwise. */
  function SafeNext(next: Option<string>): (r: string)
    ensures LocalPath(r)
    ensures next.Some? && LocalPath(next.value) ==> r == next.value
    ensures next.None? ==> r == "/"
  {
    if next.Some? && LocalPath(next.value) then next.value else "/"
  }

  /** The route with `next` checked: every outcome stays on the origin. */
  function SafeCallback(origin: string, q: Query, encode: string -> string, exchange: string -> Option<string>): (r: Outcome)
    ensures StaysOnOrigin(r.location, origin)
    ensures r.exchanged <==> !Truthy(q.error) && Truthy(q.code)
  {
    if Truthy(q.error) then
      var message := if Truthy(q.errorDescription) then encode(q.errorDescription.value) else "auth_failed";
      StaysOnOriginOf(origin, ErrorPrefix + message);
      Outcome(origin + ErrorPrefix + message, false)
    else if !Truthy(q.code) then
      StaysOnOriginOf(origin, ErrorPrefix + "no_code");
      Outcome(origin + ErrorPrefix + "no_code", false)
    else
      var failure := exchange(q.code.value);
      if failure.None? then
        StaysOnOriginOf(origin, SafeNext(q.next));
        Outcome(origin + SafeNext(q.next), true)
      else
        StaysOnOriginOf(origin, ErrorPrefix + encode(failure.value));
        Outcome(origin + ErrorPrefix + encode(failure.value), true)
  }

  /** The check changes nothing for a missing `next` or a local one: the two routes
      differ only where the route as written leaves the origin. */
  lemma SafeCallbackAgrees(origin: string, q: Query, encode: string -> string, exchange: string -> Option<string>)
    requires q.next.None? || LocalPath(q.next.value)
    ensures SafeCallback(origin, q, encode, exchange) == Callback(origin, q, encode, exchange)
  {
  }
}
