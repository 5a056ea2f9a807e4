/** Selecting a route by host and path prefix, and rewriting the forwarded path. */
module Routing {
  import opened Base
  import opened Text

  /** `s.trim_end_matches('/')`. */
  function TrimSlashes(s: string): (t: string)
    ensures t <= s && (t == "" || t[|t| - 1] != '/')
    ensures forall i | |t| <= i < |s| :: s[i] == '/'
  {
    if s != "" && s[|s| - 1] == '/' then TrimSlashes(s[..|s| - 1]) else s
  }

  function StripPrefix(s: string, prefix: string): Option<string> {
    if prefix <= s then Some(s[|prefix|..]) else None
  }

  /** The trimmed prefix ends where the path ends or where its next segment starts. */
  predicate PathUnderPrefix(path: string, prefix: string) {
    var prefix := TrimSlashes(prefix);
    prefix == "" ||
    match StripPrefix(path, prefix)
    case Some(rest) => rest == "" || rest[0] == '/'
    case None => false
  }

  datatype Route = Route(host: Option<string>, pathPrefix: Option<string>, stripPrefix: bool)

  predicate Matches(r: Route, host: Option<string>, path: string) {
    && (r.host.Some? ==> host.Some? && EqIgnoreAsciiCase(host.value, r.host.value))
    && (r.pathPrefix.Some? ==> PathUnderPrefix(path, r.pathPrefix.value))
  }

  /** The first route that accepts the request. */
  function MatchRoute(routes: seq<Route>, host: Option<string>, path: string): (r: Option<nat>)
    ensures r.Some? ==>
      && r.value < |routes| && Matches(routes[r.value], host, path)
      && forall i | 0 <= i < r.value :: !Matches(routes[i], host, path)
    ensures r.None? ==> forall i | 0 <= i < |routes| :: !Matches(routes[i], host, path)
  {
    if routes == [] then None
    else if Matches(routes[0], host, path) then Some(0)
    else
      match MatchRoute(routes[1..], host, path)
      case Some(i) => Some(i + 1)
      case None => None
  }

  /** The path to forward, or nothing to forward it unchanged. */
  function RewritePath(r: Route, path: string): Option<string> {
    if !r.stripPrefix || r.pathPrefix.None? then None
    else
      var prefix := TrimSlashes(r.pathPrefix.value);
      var rest := match StripPrefix(path, prefix) case Some(rest) => rest case None => path;
      Some(if rest == "" then "/" else rest)
  }

  /** The path and query sent upstream. */
  function ForwardTarget(r: Route, path: string, query: Option<string>): string {
    var forwarded := match RewritePath(r, path) case Some(rewritten) => rewritten case None => path;
    if query.Some? then forwarded + "?" + query.value else forwarded
  }

  // ---------- Prefix routing is segment routing ----------

  lemma {:induction false} JoinConcat(a: seq<string>, b: seq<string>, sep: char)
    requires a != [] && b != []
    ensures Join(a + b, sep) == Join(a, sep) + [sep] + Join(b, sep)
  {
    if |a| == 1 {
      assert (a + b)[1..] == b;
    } else {
      assert (a + b)[1..] == a[1..] + b;
      JoinConcat(a[1..], b, sep);
    }
  }

  /**
   A path is under a prefix exactly when the `/`-segments of the trimmed prefix begin the segments
   of the path; a prefix of slashes only matches everything.
   */
  lemma UnderIffSegments(path: string, prefix: string)
    ensures PathUnderPrefix(path, prefix)
       <==> TrimSlashes(prefix) == "" || Split(TrimSlashes(prefix), '/') <= Split(path, '/')
  {
    hide Split;
    hide Join;
    var p := TrimSlashes(prefix);
    var ps, segments := Split(p, '/'), Split(path, '/');
    if PathUnderPrefix(path, prefix) && p != "" && path != p {
      var rest := path[|p| + 1..];
      assert path == p + ['/'] + rest;
      SplitConcat(p, rest, '/');
    }
    if ps <= segments {
      var tail := segments[|ps|..];
      assert segments == ps + tail;
      JoinOfSplit(p, '/');
      JoinOfSplit(path, '/');
      if tail == [] {
        assert segments == ps;
        assert path == p;
      } else {
        JoinConcat(ps, tail, '/');
        assert path == p + ['/'] + Join(tail, '/');
      }
    }
  }

  lemma UnderTransitive(path: string, mid: string, prefix: string)
    requires PathUnderPrefix(mid, prefix) && PathUnderPrefix(path, mid)
    ensures PathUnderPrefix(path, prefix)
  {
    var p, m := TrimSlashes(prefix), TrimSlashes(mid);
    if p != "" {
      assert p[|p| - 1] == mid[|p| - 1] != '/';
      assert |p| <= |m|;
      assert p == mid[..|p|] == m[..|p|] == path[..|p|];
      if |p| < |m| {
        assert path[|p|] == m[|p|] == mid[|p|] == '/';
      }
    }
  }

  // ---------- Shadowing ----------

  predicate WiderHost(a: Route, b: Route) {
    a.host.Some? ==> b.host.Some? && EqIgnoreAsciiCase(b.host.value, a.host.value)
  }

  predicate WiderPath(a: Route, b: Route) {
    a.pathPrefix.Some? && TrimSlashes(a.pathPrefix.value) != "" ==>
      b.pathPrefix.Some? && PathUnderPrefix(b.pathPrefix.value, a.pathPrefix.value)
  }

  lemma UnderItself(prefix: string)
    ensures PathUnderPrefix(prefix, prefix)
  {
  }

  /** One route accepts every request of another exactly when its host and prefix are both wider. */
  lemma ShadowsIffWider(a: Route, b: Route)
    ensures (forall host, path :: Matches(b, host, path) ==> Matches(a, host, path))
       <==> WiderHost(a, b) && WiderPath(a, b)
  {
    hide PathUnderPrefix;
    var host := b.host;
    var path := if b.pathPrefix.Some? then b.pathPrefix.value else "";
    UnderItself(path);
    assert Matches(b, host, path);
    if WiderHost(a, b) && WiderPath(a, b) {
      forall host, path | Matches(b, host, path) ensures Matches(a, host, path) {
        if a.pathPrefix.Some? {
          if TrimSlashes(a.pathPrefix.value) == "" {
            UnderNothing(path, a.pathPrefix.value);
          } else {
            UnderTransitive(path, b.pathPrefix.value, a.pathPrefix.value);
          }
        }
      }
    } else {
      if a.pathPrefix.Some? && TrimSlashes(a.pathPrefix.value) != "" {
        EmptyPathIsUnder(a.pathPrefix.value);
      }
      assert !Matches(a, host, path);
    }
  }

  lemma UnderNothing(path: string, prefix: string)
    requires TrimSlashes(prefix) == ""
    ensures PathUnderPrefix(path, prefix)
  {
  }

  lemma EmptyPathIsUnder(prefix: string)
    requires TrimSlashes(prefix) != ""
    ensures !PathUnderPrefix("", prefix)
  {
  }

  /** A route behind an earlier, wider one is never selected. */
  lemma ShadowedNeverSelected(routes: seq<Route>, i: nat, j: nat, host: Option<string>, path: string)
    requires i < j < |routes| && WiderHost(routes[i], routes[j]) && WiderPath(routes[i], routes[j])
    ensures MatchRoute(routes, host, path) != Some(j)
  {
    ShadowsIffWider(routes[i], routes[j]);
  }

  // ---------- Rewriting ----------

  /**
   For a matched path, prefix and rewritten path put together give the original back, except that
   the bare prefix becomes `/`.
   */
  lemma RewriteInverse(r: Route, host: Option<string>, path: string)
    requires Matches(r, host, path) && r.stripPrefix && r.pathPrefix.Some?
    ensures RewritePath(r, path).Some?
    ensures var prefix, rewritten := TrimSlashes(r.pathPrefix.value), RewritePath(r, path).value;
            if path == prefix then rewritten == "/" else prefix + rewritten == path
  {
  }

  /**
   The rewritten path of a match begins with `/` exactly when the prefix names something, or the
   request path itself does (or is empty): the route `/` forwards `*` as it is.
   */
  lemma RewriteStartsWithSlash(r: Route, host: Option<string>, path: string)
    requires Matches(r, host, path) && r.stripPrefix && r.pathPrefix.Some?
    ensures RewritePath(r, path).value != ""
    ensures RewritePath(r, path).value[0] == '/'
       <==> TrimSlashes(r.pathPrefix.value) != "" || path == "" || path[0] == '/'
  {
  }

  /** Beyond a proper prefix, rewriting drops the prefix's segments and keeps the others. */
  lemma RewriteDropsSegments(r: Route, host: Option<string>, path: string)
    requires Matches(r, host, path) && r.stripPrefix && r.pathPrefix.Some?
    requires TrimSlashes(r.pathPrefix.value) != "" && path != TrimSlashes(r.pathPrefix.value)
    ensures var prefix, rewritten := TrimSlashes(r.pathPrefix.value), RewritePath(r, path).value;
            Split(rewritten, '/')[0] == "" && Split(path, '/') == Split(prefix, '/') + Split(rewritten, '/')[1..]
  {
    hide Split;
    var prefix := TrimSlashes(r.pathPrefix.value);
    var rest := path[|prefix| + 1..];
    assert path == prefix + ['/'] + rest;
    assert RewritePath(r, path).value == "" + ['/'] + rest;
    SplitConcat(prefix, rest, '/');
    SplitConcat("", rest, '/');
    SplitWithout("", '/');
  }

  /** Nothing is rewritten exactly if the route does not strip, or has no prefix; a path elsewhere stays as it is. */
  lemma RewritesExactly(r: Route, path: string)
    ensures RewritePath(r, path) == None <==> !r.stripPrefix || r.pathPrefix == None
    ensures r.stripPrefix && r.pathPrefix.Some? && !(TrimSlashes(r.pathPrefix.value) <= path) && path != "" ==>
              RewritePath(r, path) == Some(path)
  {
  }

  predicate Strips(r: Route) {
    r.stripPrefix && r.pathPrefix.Some? && TrimSlashes(r.pathPrefix.value) != ""
  }

  /** What a target without its query is, of a route that strips: the path less the segments of the prefix, or `/`. */
  ghost predicate Stripped(prefix: string, path: string, forwarded: string) {
    if path == prefix then forwarded == "/"
    else Split(forwarded, '/')[0] == "" && Split(path, '/') == Split(prefix, '/') + Split(forwarded, '/')[1..]
  }

  /**
   What a matched request is forwarded as: the query always as it came; the path whole if the route does
   not strip or its prefix names nothing, and otherwise without the segments of the prefix. Only an empty
   path may become `/` instead.
   */
  lemma ForwardedExactly(r: Route, host: Option<string>, path: string, query: string)
    requires Matches(r, host, path)
    ensures var forwarded := ForwardTarget(r, path, None);
            && ForwardTarget(r, path, Some(query)) == forwarded + "?" + query
            && (Strips(r) ==> Stripped(TrimSlashes(r.pathPrefix.value), path, forwarded))
            && (!Strips(r) ==> forwarded == path || (path == "" && forwarded == "/"))
            && (!r.stripPrefix ==> forwarded == path)
  {
    if Strips(r) {
      RewriteInverse(r, host, path);
      if path != TrimSlashes(r.pathPrefix.value) {
        RewriteDropsSegments(r, host, path);
      }
    }
    hide Split;
    hide Matches;
  }
}
