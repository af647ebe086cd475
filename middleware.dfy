/** The route guard of middleware.ts: a first-match decision over whether a session exists,
    the request path and the `referer` header. */
module Middleware {
  import opened Common
  import opened Text

  /** Pass the request on, or redirect it to a path. */
  datatype Decision = Next | RedirectTo(path: string)

  const Dashboard := "/dashboard"
  const SignIn := "/signin"

  /** Pages for visitors without a session. */
  predicate IsGuestOnlyPath(p: string)
  {
    p == "/" || StartsWith(p, "/signin") || StartsWith(p, "/signup") || StartsWith(p, "/verify-code")
  }

  /** Pages that need a session. */
  predicate IsProtectedPath(p: string)
  {
    StartsWith(p, "/dashboard") || StartsWith(p, "/result") || StartsWith(p, "/playground") || StartsWith(p, "/profile")
  }

  const ResultPrefix := "/result/"

  /** `/^\/result\/[^/]+$/`: one non-empty segment after "/result/". */
  predicate IsResultDetailPath(p: string)
  {
    StartsWith(p, ResultPrefix) && |p| > |ResultPrefix| && '/' !in p[|ResultPrefix|..]
  }

  /** A result page may be opened from the playground or from another result page. */
  predicate RefererAllowed(referer: Option<string>)
  {
    Truthy(referer) && (Contains(referer.value, "/playground") || Contains(referer.value, "/result"))
  }

  function Decide(authed: bool, path: string, referer: Option<string>): (d: Decision)
    // the three redirect rules, in order, and `next` otherwise
    ensures d == RedirectTo(Dashboard) <==>
              authed && (IsGuestOnlyPath(path) || (IsResultDetailPath(path) && !RefererAllowed(referer)))
    ensures d == RedirectTo(SignIn) <==> !authed && IsProtectedPath(path)
    ensures d.Next? <==>
              if authed then !IsGuestOnlyPath(path) && !(IsResultDetailPath(path) && !RefererAllowed(referer))
              else !IsProtectedPath(path)
    // a signed-in user is never sent to sign in, a visitor never to the dashboard
    ensures authed ==> d != RedirectTo(SignIn)
    ensures !authed ==> d != RedirectTo(Dashboard)
  {
    if authed && IsGuestOnlyPath(path) then RedirectTo(Dashboard)
    else if !authed && IsProtectedPath(path) then RedirectTo(SignIn)
    else if authed && IsResultDetailPath(path) && !RefererAllowed(referer) then RedirectTo(Dashboard)
    else Next
  }

  /** A text that differs from `p` at a position of both does not start with `p`. */
  lemma DiffersAt(s: string, p: string, k: nat)
    requires k < |s| && k < |p| && s[k] != p[k]
    ensures !StartsWith(s, p)
  {
    if |p| <= |s| {
      assert s[..|p|][k] == s[k];
    }
  }

  /** Result pages are not guest pages. */
  lemma ResultPathNotGuestOnly(path: string)
    requires StartsWith(path, ResultPrefix)
    ensures !IsGuestOnlyPath(path)
  {
    assert path[..|ResultPrefix|][1] == path[1];
    DiffersAt(path, "/signin", 1);
    DiffersAt(path, "/signup", 1);
    DiffersAt(path, "/verify-code", 1);
  }

  /** A result path with more than one segment is not a detail page, so the referer does
      not matter for it. */
  lemma NestedResultPathIgnoresReferer(a: string, b: string, referer: Option<string>)
    requires '/' !in a && '/' !in b
    ensures Decide(true, ResultPrefix + a + "/" + b, referer) == Next
  {
    var p := ResultPrefix + a + "/" + b;
    assert p[..|ResultPrefix|] == ResultPrefix;
    assert p[|ResultPrefix|..][|a|] == '/';
    ResultPathNotGuestOnly(p);
  }

  /** The paths the middleware is registered for. */
  const Matcher := ["/", "/dashboard/:path*", "/signin", "/signup", "/verify-code/:path*",
                    "/result/:path*", "/playground/:path*", "/profile/:path*"]
}
