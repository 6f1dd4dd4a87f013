/** Route resolution: the first configured route whose path is a plain
    character prefix of the request path wins. */
module Router {
  import opened Models

  /** `s` starts with `p`, character by character, with no boundary check. */
  predicate StartsWith(s: string, p: string) {
    |p| <= |s| && s[..|p|] == p
  }

  /** The lowest index whose route path prefixes `path`, searched from the front. */
  function MatchRoute(routes: seq<Route>, path: string): (r: Option<Route>)
    ensures r.None? <==> forall i :: 0 <= i < |routes| ==> !StartsWith(path, routes[i].path)
    ensures r.Some? ==>
      exists i :: 0 <= i < |routes| && routes[i] == r.value && StartsWith(path, r.value.path)
        && forall j :: 0 <= j < i ==> !StartsWith(path, routes[j].path)
  {
    if routes == [] then None
    else if StartsWith(path, routes[0].path) then
      Some(routes[0])
    else
      var r := MatchRoute(routes[1..], path);
      if r.Some? then
        var i :| 0 <= i < |routes[1..]| && routes[1..][i] == r.value && StartsWith(path, r.value.path)
          && forall j :: 0 <= j < i ==> !StartsWith(path, routes[1..][j].path);
        assert routes[i + 1] == r.value;
        assert forall j :: 0 <= j < i + 1 ==> !StartsWith(path, routes[j].path) by {
          forall j | 0 <= j < i + 1 ensures !StartsWith(path, routes[j].path) {
            if j > 0 { assert routes[j] == routes[1..][j - 1]; }
          }
        }
        r
      else
        assert forall i :: 0 <= i < |routes| ==> !StartsWith(path, routes[i].path) by {
          forall i | 0 <= i < |routes| ensures !StartsWith(path, routes[i].path) {
            if i > 0 { assert routes[i] == routes[1..][i - 1]; }
          }
        }
        r
  }

  /** The first route whose path prefixes the request path is the one chosen,
      whatever matching routes follow it, however much more specific. */
  lemma {:induction false} MatchIsLowestIndex(routes: seq<Route>, path: string, i: nat)
    requires i < |routes| && StartsWith(path, routes[i].path)
    requires forall j :: 0 <= j < i ==> !StartsWith(path, routes[j].path)
    ensures MatchRoute(routes, path) == Some(routes[i])
  {
    var r := MatchRoute(routes, path);
    var k :| 0 <= k < |routes| && routes[k] == r.value && StartsWith(path, r.value.path)
      && forall m :: 0 <= m < k ==> !StartsWith(path, routes[m].path);
  }

  /** The match is a bare prefix test: "/app" also claims "/application". */
  lemma NoSegmentBoundary(backend: string)
    ensures MatchRoute([Route("/app", backend)], "/application") == Some(Route("/app", backend))
  {
    assert "/application"[..4] == "/app";
  }

  /** The empty route path is a prefix of every request path. */
  lemma EmptyRouteMatchesAll(backend: string, path: string)
    ensures MatchRoute([Route("", backend)], path) == Some(Route("", backend))
  {
    assert path[..0] == "";
  }

  /** With "/api" listed before "/api/users", "/api/users/1" goes to the first. */
  lemma FirstMatchWinsExample(a: string, b: string)
    ensures MatchRoute([Route("/api", a), Route("/api/users", b)], "/api/users/1") == Some(Route("/api", a))
  {
    assert "/api/users/1"[..4] == "/api";
  }
}
