/**
 Chains of plugins around an upstream fetch. A plugin is any total function on requests and any on
 responses; either may fail.
 */
module PluginChain {
  import opened Base

  datatype Result<+T, +E> = Ok(value: T) | Err(error: E)

  /** Either the request goes on, perhaps changed, or the client is answered at once. */
  datatype Action<+Q, +R> = Continue(request: Q) | Respond(response: R)

  datatype Plugin<!Q, !R, !E> = Plugin(
    onRequest: Q -> Result<Action<Q, R>, E>,
    onResponse: R -> Result<R, E>)

  /** What a run does, in order; hooks are named by the plugin's place in the chain. */
  datatype Event = RequestHook(i: int) | Fetch | ResponseHook(i: int)

  // ---------- The two phases ----------

  /** Request hooks in order, until one responds or fails; `base` is the place of the first plugin. */
  function RequestPhase<Q, R, E>(chain: seq<Plugin<Q, R, E>>, base: nat, q: Q): (Result<Action<Q, R>, E>, seq<Event>)
    decreases |chain|
  {
    if chain == [] then (Ok(Continue(q)), [])
    else
      match chain[0].onRequest(q)
      case Err(e) => (Err(e), [RequestHook(base)])
      case Ok(Respond(r)) => (Ok(Respond(r)), [RequestHook(base)])
      case Ok(Continue(q')) =>
        var (result, trace) := RequestPhase(chain[1..], base + 1, q');
        (result, [RequestHook(base)] + trace)
  }

  /** Response hooks in reverse order, until one fails. */
  function ResponsePhase<Q, R, E>(chain: seq<Plugin<Q, R, E>>, r: R): (Result<R, E>, seq<Event>)
    decreases |chain|
  {
    if chain == [] then (Ok(r), [])
    else
      var last := |chain| - 1;
      match chain[last].onResponse(r)
      case Err(e) => (Err(e), [ResponseHook(last)])
      case Ok(r') =>
        var (result, trace) := ResponsePhase(chain[..last], r');
        (result, [ResponseHook(last)] + trace)
  }

  /** `Plugins::run`: request hooks, one fetch unless a plugin responded, response hooks. */
  function Run<Q, R, E>(chain: seq<Plugin<Q, R, E>>, fetch: Q -> Result<R, E>, q: Q): (Result<R, E>, seq<Event>) {
    var (outcome, before) := RequestPhase(chain, 0, q);
    match outcome
    case Err(e) => (Err(e), before)
    case Ok(Respond(r)) => (Ok(r), before)
    case Ok(Continue(q')) =>
      match fetch(q')
      case Err(e) => (Err(e), before + [Fetch])
      case Ok(r) =>
        var (result, after) := ResponsePhase(chain, r);
        (result, before + [Fetch] + after)
  }

  // ---------- The code ----------

  ghost function Preceded<T>(trace: seq<Event>, rest: (T, seq<Event>)): (T, seq<Event>) {
    (rest.0, trace + rest.1)
  }

  lemma PrecededByNothing<T>(rest: (T, seq<Event>))
    ensures Preceded([], rest) == rest
  {
    assert [] + rest.1 == rest.1;
  }

  lemma PrecededTwice<T>(a: seq<Event>, b: seq<Event>, rest: (T, seq<Event>))
    ensures Preceded(a, Preceded(b, rest)) == Preceded(a + b, rest)
  {
    assert a + (b + rest.1) == a + b + rest.1;
  }

  method HandleRequest<Q, R, E>(plugins: seq<Plugin<Q, R, E>>, request: Q)
    returns (outcome: Result<Action<Q, R>, E>, ghost trace: seq<Event>)
    ensures (outcome, trace) == RequestPhase(plugins, 0, request)
  {
    var current := request;
    trace := [];
    PrecededByNothing(RequestPhase(plugins, 0, request));
    assert plugins[0..] == plugins;
    for i := 0 to |plugins|
      invariant RequestPhase(plugins, 0, request) == Preceded(trace, RequestPhase(plugins[i..], i, current))
    {
      assert plugins[i..][1..] == plugins[i + 1..];
      ghost var hook := [RequestHook(i)];
      var action := plugins[i].onRequest(current);
      match action {
        case Err(e) => return Err(e), trace + hook;
        case Ok(Respond(response)) => return Ok(Respond(response)), trace + hook;
        case Ok(Continue(modified)) =>
          PrecededTwice(trace, hook, RequestPhase(plugins[i + 1..], i + 1, modified));
          current := modified;
      }
      trace := trace + hook;
    }
    assert trace + [] == trace;
    outcome := Ok(Continue(current));
  }

  method HandleResponse<Q, R, E>(plugins: seq<Plugin<Q, R, E>>, response: R)
    returns (result: Result<R, E>, ghost trace: seq<Event>)
    ensures (result, trace) == ResponsePhase(plugins, response)
  {
    var current := response;
    trace := [];
    PrecededByNothing(ResponsePhase(plugins, response));
    var i := |plugins|;
    assert plugins[..i] == plugins;
    while i > 0
      invariant 0 <= i <= |plugins|
      invariant ResponsePhase(plugins, response) == Preceded(trace, ResponsePhase(plugins[..i], current))
    {
      i := i - 1;
      assert plugins[..i + 1][..i] == plugins[..i];
      ghost var hook := [ResponseHook(i)];
      var next := plugins[i].onResponse(current);
      match next {
        case Err(e) => return Err(e), trace + hook;
        case Ok(r) =>
          PrecededTwice(trace, hook, ResponsePhase(plugins[..i], r));
          current := r;
      }
      trace := trace + hook;
    }
    assert trace + [] == trace;
    result := Ok(current);
  }

  method RunPlugins<Q, R, E>(chain: seq<Plugin<Q, R, E>>, fetch: Q -> Result<R, E>, request: Q)
    returns (response: Result<R, E>, ghost trace: seq<Event>)
    ensures (response, trace) == Run(chain, fetch, request)
  {
    var outcome, before := HandleRequest(chain, request);
    match outcome {
      case Err(e) => return Err(e), before;
      case Ok(Respond(r)) => return Ok(r), before;
      case Ok(Continue(q)) =>
        var fetched := fetch(q);
        match fetched {
          case Err(e) => return Err(e), before + [Fetch];
          case Ok(r) =>
            var result, after := HandleResponse(chain, r);
            return result, before + [Fetch] + after;
        }
    }
  }

  // ---------- Order of events ----------

  function Requests(base: nat, k: nat): (trace: seq<Event>)
    ensures |trace| == k
  {
    seq(k, i => RequestHook(base + i))
  }

  /** The first `k` response hooks of a chain of `n`. */
  function Responses(n: nat, k: nat): (trace: seq<Event>)
    ensures |trace| == k
  {
    seq(k, i => ResponseHook(n - 1 - i))
  }

  lemma {:induction false} RequestTrace<Q, R, E>(chain: seq<Plugin<Q, R, E>>, base: nat, q: Q)
    ensures var (outcome, trace) := RequestPhase(chain, base, q);
            && |trace| <= |chain| && trace == Requests(base, |trace|)
            && (outcome.Ok? && outcome.value.Continue? ==> |trace| == |chain|)
            && (outcome.Ok? && outcome.value.Respond? ==> |trace| >= 1)
    decreases |chain|
  {
    if chain != [] {
      match chain[0].onRequest(q) {
        case Ok(Continue(q')) =>
          RequestTrace(chain[1..], base + 1, q');
          var rest := RequestPhase(chain[1..], base + 1, q').1;
          assert [RequestHook(base)] + Requests(base + 1, |rest|) == Requests(base, |rest| + 1);
        case _ =>
          assert [RequestHook(base)] == Requests(base, 1);
      }
    }
  }

  lemma {:induction false} ResponseTrace<Q, R, E>(chain: seq<Plugin<Q, R, E>>, r: R)
    ensures var (result, trace) := ResponsePhase(chain, r);
            && |trace| <= |chain| && trace == Responses(|chain|, |trace|)
            && (result.Ok? ==> |trace| == |chain|)
    decreases |chain|
  {
    if chain != [] {
      var last := |chain| - 1;
      match chain[last].onResponse(r) {
        case Ok(r') =>
          ResponseTrace(chain[..last], r');
          var rest := ResponsePhase(chain[..last], r').1;
          assert [ResponseHook(last)] + Responses(last, |rest|) == Responses(|chain|, |rest| + 1);
        case _ =>
          assert [ResponseHook(last)] == Responses(|chain|, 1);
      }
    }
  }

  /**
   Middleware nesting: a run that nothing cuts short is every request hook in order, one fetch, and
   every response hook in reverse. A plugin that responds ends the run there: no later request
   hook, no fetch and no response hook happens, and its response is the result.
   */
  lemma TraceOfRun<Q, R, E>(chain: seq<Plugin<Q, R, E>>, fetch: Q -> Result<R, E>, q: Q)
    ensures var (result, trace) := Run(chain, fetch, q);
            var n, outcome := |chain|, RequestPhase(chain, 0, q).0;
            match outcome
            case Ok(Continue(q')) =>
              if fetch(q').Err? then result.Err? && trace == Requests(0, n) + [Fetch]
              else exists k | 0 <= k <= n && (result.Ok? ==> k == n) ::
                     trace == Requests(0, n) + [Fetch] + Responses(n, k)
            case Ok(Respond(r)) => result == Ok(r) && exists k | 1 <= k <= n :: trace == Requests(0, k)
            case Err(e) => result == Err(e) && exists k | 0 <= k <= n :: trace == Requests(0, k)
  {
    RequestTrace(chain, 0, q);
    var (outcome, before) := RequestPhase(chain, 0, q);
    match outcome {
      case Ok(Continue(q')) =>
        match fetch(q') {
          case Ok(r) =>
            ResponseTrace(chain, r);
            var after := ResponsePhase(chain, r).1;
            assert after == Responses(|chain|, |after|);
          case Err(_) =>
        }
      case Ok(Respond(r)) =>
        assert before == Requests(0, |before|);
      case Err(_) =>
        assert before == Requests(0, |before|);
    }
  }

  // ---------- Nesting ----------

  /** A response on its way out through the response hooks, or a result that passes them by. */
  datatype Flow<+R, +E> = Through(response: R) | Done(result: Result<R, E>)

  /** The reference: each plugin wraps whatever is inside it. */
  function Wrap<Q, R, E>(p: Plugin<Q, R, E>, inner: Q -> Flow<R, E>, q: Q): Flow<R, E> {
    match p.onRequest(q)
    case Err(e) => Done(Err(e))
    case Ok(Respond(r)) => Done(Ok(r))
    case Ok(Continue(q')) => Outward(p, inner(q'))
  }

  function Outward<Q, R, E>(p: Plugin<Q, R, E>, flow: Flow<R, E>): Flow<R, E> {
    match flow
    case Done(result) => Done(result)
    case Through(r) =>
      match p.onResponse(r)
      case Err(e) => Done(Err(e))
      case Ok(r') => Through(r')
  }

  function Nest<Q, R, E>(chain: seq<Plugin<Q, R, E>>, inner: Q -> Flow<R, E>, q: Q): Flow<R, E>
    decreases |chain|
  {
    if chain == [] then inner(q)
    else Wrap(chain[0], q' => Nest(chain[1..], inner, q'), q)
  }

  function FetchFlow<R, E>(r: Result<R, E>): Flow<R, E> {
    if r.Ok? then Through(r.value) else Done(r)
  }

  function Finish<R, E>(flow: Flow<R, E>): Result<R, E> {
    match flow
    case Through(r) => Ok(r)
    case Done(result) => result
  }

  /** Running the response hooks of `outer` then `inner`'s is running those of the longer chain. */
  lemma {:induction false} ResponseConcat<Q, R, E>(outer: seq<Plugin<Q, R, E>>, inner: seq<Plugin<Q, R, E>>, r: R)
    ensures var mid := ResponsePhase(inner, r).0;
            ResponsePhase(outer + inner, r).0 == if mid.Ok? then ResponsePhase(outer, mid.value).0 else mid
    decreases |inner|
  {
    if inner == [] {
      assert outer + inner == outer;
    } else {
      var last := |inner| - 1;
      assert (outer + inner)[..|outer| + last] == outer + inner[..last];
      match inner[last].onResponse(r) {
        case Ok(r') => ResponseConcat(outer, inner[..last], r');
        case Err(_) =>
      }
    }
  }

  lemma {:induction false} RequestConcat<Q, R, E>(
    outer: seq<Plugin<Q, R, E>>, inner: seq<Plugin<Q, R, E>>, outerBase: nat, innerBase: nat, base: nat, q: Q)
    ensures var mid := RequestPhase(outer, outerBase, q).0;
            RequestPhase(outer + inner, base, q).0
              == if mid.Ok? && mid.value.Continue? then RequestPhase(inner, innerBase, mid.value.request).0 else mid
    decreases |outer|
  {
    if outer == [] {
      assert outer + inner == inner;
      BaseIrrelevant(inner, base, innerBase, q);
    } else {
      assert (outer + inner)[1..] == outer[1..] + inner;
      match outer[0].onRequest(q) {
        case Ok(Continue(q')) => RequestConcat(outer[1..], inner, outerBase + 1, innerBase, base + 1, q');
        case _ =>
      }
    }
  }

  lemma {:induction false} BaseIrrelevant<Q, R, E>(chain: seq<Plugin<Q, R, E>>, b1: nat, b2: nat, q: Q)
    ensures RequestPhase(chain, b1, q).0 == RequestPhase(chain, b2, q).0
    decreases |chain|
  {
    if chain != [] {
      match chain[0].onRequest(q) {
        case Ok(Continue(q')) => BaseIrrelevant(chain[1..], b1 + 1, b2 + 1, q');
        case _ =>
      }
    }
  }

  /** The two loops around one fetch compute exactly the nested wrapping of the reference. */
  lemma {:induction false} RunIsNested<Q, R, E>(chain: seq<Plugin<Q, R, E>>, fetch: Q -> Result<R, E>, q: Q)
    ensures Run(chain, fetch, q).0 == Finish(Nest(chain, q' => FetchFlow(fetch(q')), q))
    ensures Nest(chain, q' => FetchFlow(fetch(q')), q) == RunFlow(chain, fetch, q)
    decreases |chain|
  {
    if chain != [] {
      var first, rest := [chain[0]], chain[1..];
      assert chain == first + rest;
      match chain[0].onRequest(q) {
        case Ok(Continue(q')) =>
          RunIsNested(rest, fetch, q');
          BaseIrrelevant(rest, 1, 0, q');
          match RequestPhase(rest, 0, q').0 {
            case Ok(Continue(q'')) =>
              match fetch(q'') {
                case Ok(r) =>
                  ResponseConcat(first, rest, r);
                  OneResponse(chain[0], ResponsePhase(rest, r).0);
                case Err(_) =>
              }
            case _ =>
          }
        case _ =>
      }
    }
  }

  lemma OneResponse<Q, R, E>(p: Plugin<Q, R, E>, mid: Result<R, E>)
    ensures mid.Ok? ==> ResponsePhase([p], mid.value).0 == p.onResponse(mid.value)
  {
    if mid.Ok? {
      assert [p][..0] == [];
    }
  }

  /** `Run`, remembering whether the response went through the response hooks. */
  function RunFlow<Q, R, E>(chain: seq<Plugin<Q, R, E>>, fetch: Q -> Result<R, E>, q: Q): Flow<R, E> {
    match RequestPhase(chain, 0, q).0
    case Err(e) => Done(Err(e))
    case Ok(Respond(r)) => Done(Ok(r))
    case Ok(Continue(q')) =>
      match fetch(q')
      case Err(e) => Done(Err(e))
      case Ok(r) => FetchFlow(ResponsePhase(chain, r).0)
  }

  /** A chain put together from two is the first one wrapped around the second: global plugins are outermost. */
  lemma {:induction false} NestConcat<Q, R, E>(
    outer: seq<Plugin<Q, R, E>>, inner: seq<Plugin<Q, R, E>>, core: Q -> Flow<R, E>, q: Q)
    ensures Nest(outer + inner, core, q) == Nest(outer, q' => Nest(inner, core, q'), q)
    decreases |outer|
  {
    if outer == [] {
      assert outer + inner == inner;
    } else {
      assert (outer + inner)[1..] == outer[1..] + inner;
      match outer[0].onRequest(q) {
        case Ok(Continue(q')) => NestConcat(outer[1..], inner, core, q');
        case _ =>
      }
    }
  }

  // ---------- Building the chains ----------

  function LoadAll<Q, R, E>(load: string -> Option<Plugin<Q, R, E>>, paths: seq<string>): (r: Option<seq<Plugin<Q, R, E>>>)
    ensures r.Some? ==> |r.value| == |paths| && forall i | 0 <= i < |paths| :: load(paths[i]) == Some(r.value[i])
    ensures r.None? ==> exists p | p in paths :: load(p) == None
  {
    if paths == [] then Some([])
    else
      match (load(paths[0]), LoadAll(load, paths[1..]))
      case (Some(p), Some(rest)) => Some([p] + rest)
      case _ => None
  }

  /** One chain per route, global plugins first; nothing if some plugin cannot be loaded. */
  method Build<Q, R, E>(load: string -> Option<Plugin<Q, R, E>>, global: seq<string>, routes: seq<seq<string>>)
    returns (chains: Option<seq<seq<Plugin<Q, R, E>>>>)
    ensures chains.None? <==> LoadAll(load, global).None? || exists i | 0 <= i < |routes| :: LoadAll(load, routes[i]).None?
    ensures chains.Some? ==> |chains.value| == |routes|
    ensures chains.Some? ==>
              forall i | 0 <= i < |routes| ::
                chains.value[i] == LoadAll(load, global).value + LoadAll(load, routes[i]).value
  {
    var shared := LoadAll(load, global);
    if shared.None? {
      return None;
    }
    var built: seq<seq<Plugin<Q, R, E>>> := [];
    for i := 0 to |routes|
      invariant |built| == i
      invariant forall j | 0 <= j < i :: LoadAll(load, routes[j]).Some? &&
                  built[j] == shared.value + LoadAll(load, routes[j]).value
    {
      var own := LoadAll(load, routes[i]);
      if own.None? {
        return None;
      }
      built := built + [shared.value + own.value];
    }
    chains := Some(built);
  }

  /** What a route's chain does: the global plugins wrapped around the route's own, around the fetch. */
  lemma GlobalPluginsAreOutermost<Q, R, E>(
    global: seq<Plugin<Q, R, E>>, own: seq<Plugin<Q, R, E>>, fetch: Q -> Result<R, E>, q: Q)
    ensures Run(global + own, fetch, q).0 == Finish(Nest(global, q' => RunFlow(own, fetch, q'), q))
  {
    RunIsNested(global + own, fetch, q);
    NestConcat(global, own, q' => FetchFlow(fetch(q')), q);
    SameInside(global, q' => Nest(own, q'' => FetchFlow(fetch(q'')), q'), q' => RunFlow(own, fetch, q'), fetch, own, q);
  }

  lemma {:induction false} SameInside<Q, R, E>(
    outer: seq<Plugin<Q, R, E>>, a: Q -> Flow<R, E>, b: Q -> Flow<R, E>,
    fetch: Q -> Result<R, E>, own: seq<Plugin<Q, R, E>>, q: Q)
    requires a == (q' => Nest(own, q'' => FetchFlow(fetch(q'')), q')) && b == (q' => RunFlow(own, fetch, q'))
    ensures Nest(outer, a, q) == Nest(outer, b, q)
    decreases |outer|
  {
    if outer == [] {
      RunIsNested(own, fetch, q);
    } else {
      match outer[0].onRequest(q) {
        case Ok(Continue(q')) => SameInside(outer[1..], a, b, fetch, own, q');
        case _ =>
      }
    }
  }
}
