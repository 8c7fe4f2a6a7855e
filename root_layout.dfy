/**
 * The root layout's navigation guard: while the session is loading the
 * loading screen is shown and nothing is redirected; once it has settled,
 * signed-in users are sent out of the auth group and signed-out users into
 * its login screen.
 */
module RootLayout {
  import opened Wrappers

  const AuthGroup: string := "(auth)"
  const AppGroup: string := "(app)"

  /** The two places the guard redirects to. */
  datatype Href = AppHome | AuthLogin

  /** The path passed to router.replace; it starts with the target's group segment. */
  function Path(h: Href): (p: string)
    ensures |p| > |SegmentsOf(h)[0]| && p[0] == '/' && p[1..|SegmentsOf(h)[0]| + 1] == SegmentsOf(h)[0]
  {
    match h
    case AppHome => "/(app)/"
    case AuthLogin => "/(auth)/login"
  }

  /** The route segments of the screen a redirect lands on. */
  function SegmentsOf(h: Href): (segments: seq<string>)
    ensures |segments| > 0
  {
    match h
    case AppHome => [AppGroup]
    case AuthLogin => [AuthGroup, "login"]
  }

  /** `segments[0] === '(auth)'`; with no segments the first one is undefined. */
  predicate InAuthGroup(segments: seq<string>)
    ensures InAuthGroup(segments) <==> [AuthGroup] <= segments
  {
    |segments| > 0 && segments[0] == AuthGroup
  }

  /** What the layout renders. */
  datatype Screen = LoadingScreen | Stack(screens: seq<string>)

  /** The render branch: the loading screen while loading, otherwise the
      stack of the two route groups. */
  function View(isLoading: bool): (v: Screen)
    ensures v == LoadingScreen <==> isLoading
    ensures !isLoading ==> v == Stack([AuthGroup, AppGroup])
  {
    if isLoading then LoadingScreen else Stack([AuthGroup, AppGroup])
  }

  /** The effect: the redirect issued for a session state and the current
      segments, if any. */
  function Redirect(isLoading: bool, isAuthenticated: bool, segments: seq<string>): (r: Option<Href>)
    ensures isLoading ==> r == None
    ensures r == Some(AppHome) <==> !isLoading && isAuthenticated && InAuthGroup(segments)
    ensures r == Some(AuthLogin) <==> !isLoading && !isAuthenticated && !InAuthGroup(segments)
    ensures r == None <==> isLoading || isAuthenticated != InAuthGroup(segments)
  {
    if isLoading then None
    else
      var inAuthGroup := InAuthGroup(segments);
      if isAuthenticated && inAuthGroup then Some(AppHome)
      else if !isAuthenticated && !inAuthGroup then Some(AuthLogin)
      else None
  }

  /** While loading, the loading screen is rendered and nothing is redirected. */
  lemma LoadingGate(isAuthenticated: bool, segments: seq<string>)
    ensures View(true) == LoadingScreen && Redirect(true, isAuthenticated, segments) == None
  {
  }

  /** A redirect lands where the guard is satisfied: on the target's
      segments, with the same session state, it redirects no further. */
  lemma RedirectIsStable(isAuthenticated: bool, segments: seq<string>, h: Href)
    requires Redirect(false, isAuthenticated, segments) == Some(h)
    ensures Redirect(false, isAuthenticated, SegmentsOf(h)) == None
  {
  }

  /** Once settled, the guard redirects exactly when the user is on the wrong
      side of the auth group, and to the other side. */
  lemma RedirectCrossesGroups(isAuthenticated: bool, segments: seq<string>)
    ensures Redirect(false, isAuthenticated, segments).Some? ==>
      InAuthGroup(SegmentsOf(Redirect(false, isAuthenticated, segments).value)) != InAuthGroup(segments)
  {
  }
}
