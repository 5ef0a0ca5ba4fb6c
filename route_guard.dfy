/**
 * The route guard that runs before every matched request: from the request's
 * pathname and whether the session has a signed-in user it decides to let the
 * request through or to redirect it. `startsWith` is the sequence prefix
 * relation `<=` on strings; `===` is string equality.
 */
module RouteGuard {

  /** What the guard answers; a redirect names the path it sends the browser to. */
  datatype Decision = PassThrough | Redirect(target: string)

  const Home: string := "/"
  const DashboardPrefix: string := "/dashboard"
  const CallbackPrefix: string := "/auth/callback"

  /** The three guarded cases, tried in order; everything else passes through. */
  function Decide(pathname: string, signedIn: bool): (d: Decision)
    ensures CallbackPrefix <= pathname ==> d == PassThrough
    ensures d == Redirect(Home) <==> !signedIn && DashboardPrefix <= pathname
    ensures d == Redirect(DashboardPrefix) <==> signedIn && pathname == Home
    ensures d.Redirect? ==> d.target == Home || d.target == DashboardPrefix
  {
    PrefixesExclusive(pathname);
    if CallbackPrefix <= pathname then PassThrough
    else if DashboardPrefix <= pathname && !signedIn then Redirect(Home)
    else if pathname == Home && signedIn then Redirect(DashboardPrefix)
    else PassThrough
  }

  /** No path starts with both `/auth/callback` and `/dashboard`: they differ at their second character. */
  lemma PrefixesExclusive(pathname: string)
    ensures !(CallbackPrefix <= pathname && DashboardPrefix <= pathname)
  {
    if CallbackPrefix <= pathname {
      assert pathname[1] == CallbackPrefix[1] == 'a';
    }
  }

  /** A redirect target, requested again by the same session, is let through: no redirect loop. */
  lemma NoRedirectLoop(pathname: string, signedIn: bool)
    requires Decide(pathname, signedIn).Redirect?
    ensures Decide(Decide(pathname, signedIn).target, signedIn) == PassThrough
  {
    assert !(DashboardPrefix <= Home);
    assert !(CallbackPrefix <= Home) && !(CallbackPrefix <= DashboardPrefix);
  }

  /** A signed-in user is never sent home, and a signed-out one never to the dashboard. */
  lemma RedirectMatchesSession(pathname: string, signedIn: bool)
    ensures signedIn ==> Decide(pathname, signedIn) != Redirect(Home)
    ensures !signedIn ==> Decide(pathname, signedIn) != Redirect(DashboardPrefix)
  {
  }

  /** Protection is by prefix: every path under, or merely beginning with, `/dashboard` is covered. */
  lemma DashboardProtectedByPrefix(suffix: string)
    ensures Decide(DashboardPrefix + suffix, false) == Redirect(Home)
  {
    assert (DashboardPrefix + suffix)[..|DashboardPrefix|] == DashboardPrefix;
  }

  /** The callback path passes through with or without a session, and so does anything after it. */
  lemma CallbackAlwaysPasses(suffix: string, signedIn: bool)
    ensures Decide(CallbackPrefix + suffix, signedIn) == PassThrough
  {
    assert (CallbackPrefix + suffix)[..|CallbackPrefix|] == CallbackPrefix;
  }

  /** Home is let through for a visitor without a session. */
  lemma HomePassesSignedOut()
    ensures Decide(Home, false) == PassThrough
  {
  }

  /** A path outside the three guarded cases passes through unchanged. */
  lemma OtherPathsPass(pathname: string, signedIn: bool)
    requires !(CallbackPrefix <= pathname)
    requires !(DashboardPrefix <= pathname && !signedIn)
    requires !(pathname == Home && signedIn)
    ensures Decide(pathname, signedIn) == PassThrough
  {
  }
}
