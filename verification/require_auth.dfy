/**
 * `RequireAuth`: keeps signed-out users on the sign-in screens and signed-in
 * users off them. The route's first segment is "(auth)" for the screens of
 * the sign-in group.
 */
module RequireAuth {
  import opened Js

  const AuthGroup: string := "(auth)"

  /** `segments[0] === "(auth)"`; an empty route has no first segment. */
  predicate InAuthGroup(segments: seq<string>) {
    |segments| > 0 && segments[0] == AuthGroup
  }

  /** Where the effect sends the router, or `None` when it stays put. */
  function Navigation(token: Option<string>, segments: seq<string>): (target: Option<string>)
    ensures target == Some("/login") <==> !Truthy(token) && !InAuthGroup(segments)
    ensures target == Some("/") <==> Truthy(token) && InAuthGroup(segments)
    ensures target.None? <==> (Truthy(token) <==> !InAuthGroup(segments))
  {
    if !Truthy(token) && !InAuthGroup(segments) then Some("/login")
    else if Truthy(token) && InAuthGroup(segments) then Some("/")
    else None
  }

  /** Signing out or in only ever moves the user across the group boundary:
      a route the rule leaves alone for a signed-in user is one it redirects
      for a signed-out user, and the other way round. */
  lemma SignOutFlipsDecision(t: string, segments: seq<string>)
    requires t != ""
    ensures Navigation(Some(t), segments).None? <==> Navigation(None, segments).Some?
    ensures Navigation(None, segments) == Navigation(Some(""), segments)
  {
  }
}
