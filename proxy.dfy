/** The route guard of proxy.ts: the middleware's first two rules, without the referer check
    on result pages. */
module Proxy {
  import opened Common
  import opened Text
  import opened Middleware

  function Decide(authed: bool, path: string): (d: Decision)
    ensures d == RedirectTo(Dashboard) <==> authed && IsGuestOnlyPath(path)
    ensures d == RedirectTo(SignIn) <==> !authed && IsProtectedPath(path)
    ensures d.Next? <==> (authed && !IsGuestOnlyPath(path)) || (!authed && !IsProtectedPath(path))
  {
    if authed && IsGuestOnlyPath(path) then RedirectTo(Dashboard)
    else if !authed && IsProtectedPath(path) then RedirectTo(SignIn)
    else Next
  }

  /** The two guards disagree exactly on a signed-in request for a result page whose
      referer is missing or foreign, which only the middleware redirects. */
  lemma AgreesWithMiddleware(authed: bool, path: string, referer: Option<string>)
    ensures Decide(authed, path) != Middleware.Decide(authed, path, referer) <==>
              authed && IsResultDetailPath(path) && !RefererAllowed(referer)
  {
    if IsResultDetailPath(path) {
      ResultPathNotGuestOnly(path);
    }
  }

  /** The paths the proxy is registered for: the same list as `Middleware.Matcher`. */
  const ProxyMatcher := ["/", "/dashboard/:path*", "/signin", "/signup", "/verify-code/:path*",
                         "/result/:path*", "/playground/:path*", "/profile/:path*"]
}
