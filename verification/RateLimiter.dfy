/** The fixed-window rate limiter, one window per key. */
module RateLimiter {
  import opened Base

  datatype Window = Window(startMs: nat, count: nat)
  datatype Config = Config(windowMs: nat, max: nat)

  /** One event of a key, given the key's window: the new window, and whether the event is allowed. */
  function CheckKey(cfg: Config, w: Option<Window>, now: nat): (Window, bool) {
    var w0 := if w.Some? then w.value else Window(now, 0);
    var elapsed := if now >= w0.startMs then now - w0.startMs else 0;
    var w1 := if elapsed >= cfg.windowMs then Window(now, 0) else w0;
    if w1.count < cfg.max then (w1.(count := w1.count + 1), true) else (w1, false)
  }

  type Windows = map<string, Window>

  function WindowOf(windows: Windows, key: string): Option<Window> {
    if key in windows then Some(windows[key]) else None
  }

  class RateLimiter {
    const cfg: Config
    var windows: Windows

    constructor (windowMs: nat, max: nat)
      ensures cfg == Config(windowMs, max) && windows == map[]
    {
      cfg := Config(windowMs, max);
      windows := map[];
    }

    method Check(key: string, nowMs: nat) returns (ok: bool)
      modifies this
      ensures var (w, allowed) := CheckKey(cfg, WindowOf(old(windows), key), nowMs);
              ok == allowed && windows == old(windows)[key := w]
    {
      if key !in windows {
        windows := windows[key := Window(nowMs, 0)];
      }
      var window := windows[key];
      var elapsed := if nowMs >= window.startMs then nowMs - window.startMs else 0;
      if elapsed >= cfg.windowMs {
        window := Window(nowMs, 0);
      }
      if window.count < cfg.max {
        window := window.(count := window.count + 1);
        ok := true;
      } else {
        ok := false;
      }
      windows := windows[key := window];
    }
  }

  // ---------- Runs ----------

  datatype Event = Event(key: string, now: nat)

  /** The state after a run of events of any keys. */
  function After(cfg: Config, events: seq<Event>): Windows {
    if events == [] then map[]
    else
      var before, ev := After(cfg, events[..|events| - 1]), events[|events| - 1];
      before[ev.key := CheckKey(cfg, WindowOf(before, ev.key), ev.now).0]
  }

  /** The answer to the `i`-th event of a run. */
  predicate Allowed(cfg: Config, events: seq<Event>, i: nat)
    requires i < |events|
  {
    CheckKey(cfg, WindowOf(After(cfg, events[..i]), events[i].key), events[i].now).1
  }

  /** The times of one key's events, in order. */
  function TimesOf(events: seq<Event>, key: string): seq<nat> {
    if events == [] then []
    else
      var before, ev := TimesOf(events[..|events| - 1], key), events[|events| - 1];
      if ev.key == key then before + [ev.now] else before
  }

  /** A limiter that only ever sees one key. */
  function KeyAfter(cfg: Config, times: seq<nat>): Option<Window> {
    if times == [] then None
    else Some(CheckKey(cfg, KeyAfter(cfg, times[..|times| - 1]), times[|times| - 1]).0)
  }

  predicate KeyAllowed(cfg: Config, earlier: seq<nat>, now: nat) {
    CheckKey(cfg, KeyAfter(cfg, earlier), now).1
  }

  lemma {:induction false} KeysDoNotInterfere(cfg: Config, events: seq<Event>, key: string)
    ensures WindowOf(After(cfg, events), key) == KeyAfter(cfg, TimesOf(events, key))
  {
    if events != [] {
      var before, ev := events[..|events| - 1], events[|events| - 1];
      KeysDoNotInterfere(cfg, before, key);
      if ev.key == key {
        var times := TimesOf(before, key);
        assert (times + [ev.now])[..|times|] == times;
      }
    }
  }

  /** Non-interference: the answer to an event is what a limiter serving that key alone would give. */
  lemma AnswersIgnoreOtherKeys(cfg: Config, events: seq<Event>, i: nat)
    requires i < |events|
    ensures Allowed(cfg, events, i) == KeyAllowed(cfg, TimesOf(events[..i], events[i].key), events[i].now)
  {
    KeysDoNotInterfere(cfg, events[..i], events[i].key);
  }

  // ---------- Counting ----------

  /** How many events of the key were allowed with `lo <= time < hi`. */
  function AllowedIn(cfg: Config, events: seq<Event>, key: string, lo: int, hi: int): nat {
    if events == [] then 0
    else
      var n := |events| - 1;
      AllowedIn(cfg, events[..n], key, lo, hi)
      + (if events[n].key == key && lo <= events[n].now < hi && Allowed(cfg, events, n) then 1 else 0)
  }

  function Count(cfg: Config, times: seq<nat>, lo: int, hi: int): nat {
    if times == [] then 0
    else
      var n := |times| - 1;
      Count(cfg, times[..n], lo, hi) + (if lo <= times[n] < hi && KeyAllowed(cfg, times[..n], times[n]) then 1 else 0)
  }

  lemma {:induction false} AllowedInIsCount(cfg: Config, events: seq<Event>, key: string, lo: int, hi: int)
    ensures AllowedIn(cfg, events, key, lo, hi) == Count(cfg, TimesOf(events, key), lo, hi)
  {
    if events != [] {
      var n := |events| - 1;
      AllowedInIsCount(cfg, events[..n], key, lo, hi);
      AnswersIgnoreOtherKeys(cfg, events, n);
      var times := TimesOf(events[..n], key);
      if events[n].key == key {
        assert (times + [events[n].now])[..|times|] == times;
      }
    }
  }

  predicate Nondecreasing(times: seq<nat>) {
    forall i, j | 0 <= i <= j < |times| :: times[i] <= times[j]
  }

  lemma {:induction false} CountAbove(cfg: Config, times: seq<nat>, lo: int, hi1: int, hi2: int)
    requires forall i | 0 <= i < |times| :: times[i] < hi1 && times[i] < hi2
    ensures Count(cfg, times, lo, hi1) == Count(cfg, times, lo, hi2)
  {
    if times != [] {
      CountAbove(cfg, times[..|times| - 1], lo, hi1, hi2);
    }
  }

  lemma {:induction false} CountBelow(cfg: Config, times: seq<nat>, lo: int, hi: int)
    requires forall i | 0 <= i < |times| :: times[i] < lo
    ensures Count(cfg, times, lo, hi) == 0
  {
    if times != [] {
      CountBelow(cfg, times[..|times| - 1], lo, hi);
    }
  }

  lemma {:induction false} CountSplits(cfg: Config, times: seq<nat>, lo: int, mid: int, hi: int)
    requires lo <= mid <= hi
    ensures Count(cfg, times, lo, hi) == Count(cfg, times, lo, mid) + Count(cfg, times, mid, hi)
  {
    if times != [] {
      CountSplits(cfg, times[..|times| - 1], lo, mid, hi);
    }
  }

  // ---------- The bound ----------

  /** What holds of a key's window after each event, with `n` events allowed in the interval from `a`. */
  ghost predicate WindowInv(cfg: Config, times: seq<nat>, a: int) {
    times != [] ==>
      var last, w, n := times[|times| - 1], KeyAfter(cfg, times).value, Count(cfg, times, a, a + cfg.windowMs);
      && w.startMs <= last && 1 <= w.count <= cfg.max
      && (last - w.startMs < cfg.windowMs || w.startMs == last)
      && (last < a ==> n == 0)
      && (w.startMs < a ==> n <= w.count - 1)
      && (a <= w.startMs < a + cfg.windowMs ==> n <= w.count + cfg.max - 1)
      && n <= 2 * cfg.max - 1
  }

  lemma {:induction false} WindowInvHolds(cfg: Config, times: seq<nat>, a: int)
    requires cfg.max >= 1 && Nondecreasing(times)
    ensures WindowInv(cfg, times, a)
  {
    if times != [] {
      var before, now := times[..|times| - 1], times[|times| - 1];
      WindowInvHolds(cfg, before, a);
      if before != [] {
        assert before[|before| - 1] <= now;
      }
    }
  }

  /**
   Rate bound: with nondecreasing times and a limit of at least one, no interval as long as the
   window holds more than `2 * max - 1` allowed events of a key, whatever other keys do.
   */
  lemma RateBound(cfg: Config, events: seq<Event>, key: string, a: int)
    requires cfg.max >= 1 && Nondecreasing(TimesOf(events, key))
    ensures AllowedIn(cfg, events, key, a, a + cfg.windowMs) <= 2 * cfg.max - 1
  {
    AllowedInIsCount(cfg, events, key, a, a + cfg.windowMs);
    WindowInvHolds(cfg, TimesOf(events, key), a);
    if TimesOf(events, key) == [] {
      assert Count(cfg, [], a, a + cfg.windowMs) == 0;
    }
  }

  // ---------- Refusals ----------

  /** A window's counter is the number of events allowed since it started. */
  lemma {:induction false} WindowCounts(cfg: Config, times: seq<nat>)
    requires cfg.max >= 1 && cfg.windowMs >= 1 && Nondecreasing(times) && times != []
    ensures var last, w := times[|times| - 1], KeyAfter(cfg, times).value;
            && w.startMs <= last && last - w.startMs < cfg.windowMs
            && Count(cfg, times, w.startMs, last + 1) == w.count
  {
    var before, now := times[..|times| - 1], times[|times| - 1];
    if before == [] {
      assert Count(cfg, before, now, now + 1) == 0;
    } else {
      WindowCounts(cfg, before);
      var last, w := before[|before| - 1], KeyAfter(cfg, before).value;
      assert last <= now && forall i | 0 <= i < |before| :: before[i] <= last;
      if now - w.startMs >= cfg.windowMs {
        CountBelow(cfg, before, now, now + 1);
      } else {
        CountAbove(cfg, before, w.startMs, last + 1, now + 1);
      }
    }
  }

  /** Where the window of a refused event started. */
  function RefusedSince(cfg: Config, earlier: seq<nat>): nat {
    if KeyAfter(cfg, earlier).Some? then KeyAfter(cfg, earlier).value.startMs else 0
  }

  /**
   A refusal happens only when exactly `max` events were allowed since the current window started,
   less than a window ago. All of the preceding `windowMs` holds at least `max` and at most
   `2 * max - 1` of them, and exactly `max` if and only if none of the window before reaches into it.
   */
  lemma RefusalMeansFull(cfg: Config, earlier: seq<nat>, now: nat)
    requires cfg.max >= 1 && Nondecreasing(earlier + [now]) && !KeyAllowed(cfg, earlier, now)
    ensures var start := RefusedSince(cfg, earlier); var from := now + 1 - cfg.windowMs;
            && start <= now && now - start < cfg.windowMs
            && Count(cfg, earlier, start, now + 1) == cfg.max
            && cfg.max <= Count(cfg, earlier, from, now + 1) <= 2 * cfg.max - 1
            && (Count(cfg, earlier, from, now + 1) == cfg.max <==> Count(cfg, earlier, from, start) == 0)
  {
    var all := earlier + [now];
    assert earlier != [] && cfg.windowMs >= 1;
    assert Nondecreasing(earlier) by {
      assert forall i | 0 <= i < |earlier| :: earlier[i] == all[i];
    }
    WindowCounts(cfg, earlier);
    WindowInvHolds(cfg, earlier, now + 1 - cfg.windowMs);
    var last, start, from := earlier[|earlier| - 1], RefusedSince(cfg, earlier), now + 1 - cfg.windowMs;
    assert all[|earlier| - 1] == last && all[|earlier|] == now && last <= now;
    assert forall i | 0 <= i < |earlier| :: earlier[i] <= last;
    CountAbove(cfg, earlier, start, last + 1, now + 1);
    CountSplits(cfg, earlier, from, start, now + 1);
  }

  /** The same in a run with any other keys: what a refused event of a run says about its key's past. */
  lemma RefusalInRun(cfg: Config, events: seq<Event>, i: nat)
    requires i < |events| && cfg.max >= 1 && !Allowed(cfg, events, i)
    requires Nondecreasing(TimesOf(events[..i + 1], events[i].key))
    ensures var key, now := events[i].key, events[i].now;
            var start, from := RefusedSince(cfg, TimesOf(events[..i], key)), now + 1 - cfg.windowMs;
            && start <= now && now - start < cfg.windowMs
            && AllowedIn(cfg, events[..i], key, start, now + 1) == cfg.max
            && cfg.max <= AllowedIn(cfg, events[..i], key, from, now + 1) <= 2 * cfg.max - 1
            && (AllowedIn(cfg, events[..i], key, from, now + 1) == cfg.max
                <==> AllowedIn(cfg, events[..i], key, from, start) == 0)
  {
    hide KeyAllowed;
    hide Count;
    hide AllowedIn;
    hide Allowed;
    var key, now, earlier := events[i].key, events[i].now, TimesOf(events[..i], events[i].key);
    assert events[..i + 1][..i] == events[..i];
    assert TimesOf(events[..i + 1], key) == earlier + [now];
    AnswersIgnoreOtherKeys(cfg, events, i);
    RefusalMeansFull(cfg, earlier, now);
    var start, from := RefusedSince(cfg, earlier), now + 1 - cfg.windowMs;
    AllowedInIsCount(cfg, events[..i], key, start, now + 1);
    AllowedInIsCount(cfg, events[..i], key, from, now + 1);
    AllowedInIsCount(cfg, events[..i], key, from, start);
  }

  // ---------- The bound is reached ----------

  function Repeat(t: nat, k: nat): seq<nat> {
    if k == 0 then [] else Repeat(t, k - 1) + [t]
  }

  lemma NoEvents(cfg: Config, lo: int, hi: int)
    ensures KeyAfter(cfg, []) == None && Count(cfg, [], lo, hi) == 0
  {
  }

  lemma AppendOne(cfg: Config, times: seq<nat>, t: nat, lo: int, hi: int)
    ensures KeyAfter(cfg, times + [t]) == Some(CheckKey(cfg, KeyAfter(cfg, times), t).0)
    ensures Count(cfg, times + [t], lo, hi)
         == Count(cfg, times, lo, hi) + (if lo <= t < hi && KeyAllowed(cfg, times, t) then 1 else 0)
  {
    assert (times + [t])[..|times|] == times;
  }

  /** `k` further events at time `t`, all within the limit of the window that is open then. */
  lemma {:induction false} Burst(cfg: Config, times: seq<nat>, t: nat, k: nat, start: nat, count: nat, lo: int, hi: int)
    requires KeyAfter(cfg, times) == Some(Window(start, count))
    requires start <= t && t - start < cfg.windowMs && lo <= t < hi && count + k <= cfg.max
    ensures KeyAfter(cfg, times + Repeat(t, k)) == Some(Window(start, count + k))
    ensures Count(cfg, times + Repeat(t, k), lo, hi) == Count(cfg, times, lo, hi) + k
    decreases k
  {
    hide Count;
    hide KeyAfter;
    if k == 0 {
      assert times + Repeat(t, 0) == times;
    } else {
      Burst(cfg, times, t, k - 1, start, count, lo, hi);
      assert times + Repeat(t, k) == times + Repeat(t, k - 1) + [t];
      AppendOne(cfg, times + Repeat(t, k - 1), t, lo, hi);
    }
  }

  /** A window opened at 0 and filled just before it ends, and the next one filled just after it starts. */
  function TightRun(cfg: Config): seq<nat>
    requires cfg.max >= 1 && cfg.windowMs >= 1
  {
    [0] + Repeat(cfg.windowMs - 1, cfg.max - 1) + [cfg.windowMs] + Repeat(cfg.windowMs, cfg.max - 1)
  }

  lemma TightRunCounts(cfg: Config, lo: int, hi: int)
    requires cfg.max >= 1 && 0 < lo <= cfg.windowMs - 1 && cfg.windowMs < hi
    ensures var times := TightRun(cfg);
            && Nondecreasing(times)
            && Count(cfg, times, lo, hi) == 2 * cfg.max - 1
            && KeyAfter(cfg, times) == Some(Window(cfg.windowMs, cfg.max))
  {
    hide Count;
    hide KeyAfter;
    hide Repeat;
    NoEvents(cfg, lo, hi);
    var w, m := cfg.windowMs, cfg.max;
    var first: seq<nat> := [0];
    AppendOne(cfg, [], 0, lo, hi);
    assert [] + [0] == first;
    Burst(cfg, first, w - 1, m - 1, 0, 1, lo, hi);
    var second := first + Repeat(w - 1, m - 1);
    AppendOne(cfg, second, w, lo, hi);
    Burst(cfg, second + [w], w, m - 1, w, 1, lo, hi);
    RepeatConstant(w - 1, m - 1);
    RepeatConstant(w, m - 1);
  }

  /** The bound cannot be lowered: for every limit and every window of at least 2 ms some run reaches it. */
  lemma RateBoundIsTight(cfg: Config)
    requires cfg.max >= 1 && cfg.windowMs >= 2
    ensures Nondecreasing(TightRun(cfg))
    ensures Count(cfg, TightRun(cfg), cfg.windowMs - 1, 2 * cfg.windowMs - 1) == 2 * cfg.max - 1
  {
    TightRunCounts(cfg, cfg.windowMs - 1, 2 * cfg.windowMs - 1);
  }

  /**
   A refused client may have had almost twice its limit: for every limit and every window of at least
   2 ms there is a refusal with `2 * max - 1` events allowed within the window that ends with it.
   */
  lemma RefusedAboveLimit(cfg: Config)
    requires cfg.max >= 1 && cfg.windowMs >= 2
    ensures var earlier, now := TightRun(cfg), cfg.windowMs;
            && Nondecreasing(earlier + [now])
            && !KeyAllowed(cfg, earlier, now)
            && Count(cfg, earlier, now + 1 - cfg.windowMs, now + 1) == 2 * cfg.max - 1
  {
    hide Count;
    hide KeyAfter;
    TightRunCounts(cfg, 1, cfg.windowMs + 1);
    RepeatConstant(cfg.windowMs - 1, cfg.max - 1);
    RepeatConstant(cfg.windowMs, cfg.max - 1);
  }

  lemma {:induction false} RepeatConstant(t: nat, k: nat)
    ensures |Repeat(t, k)| == k && forall i | 0 <= i < k :: Repeat(t, k)[i] == t
  {
    if k > 0 {
      RepeatConstant(t, k - 1);
    }
  }

  // ---------- Readings that arrive late ----------

  /** What the latest reading so far was, at each event. */
  function LatestSoFar(times: seq<nat>): (latest: seq<nat>)
    ensures |latest| == |times|
  {
    if times == [] then []
    else
      var n := |times| - 1;
      var before := LatestSoFar(times[..n]);
      before + [if n > 0 && before[n - 1] > times[n] then before[n - 1] else times[n]]
  }

  /** An event whose clock was read before the window's start is answered within that window, which it does not move. */
  lemma LateReading(cfg: Config, w: Window, now: nat)
    requires cfg.windowMs >= 1 && now < w.startMs
    ensures CheckKey(cfg, Some(w), now)
         == if w.count < cfg.max then (Window(w.startMs, w.count + 1), true) else (w, false)
  {
  }

  /** One event, answered at its own reading and at the latest so far. */
  lemma LatestStep(cfg: Config, w: Window, latest: nat, now: nat)
    requires cfg.windowMs >= 1 && w.startMs <= latest < w.startMs + cfg.windowMs
    ensures var latest' := if latest > now then latest else now;
            && CheckKey(cfg, Some(w), now) == CheckKey(cfg, Some(w), latest')
            && var w' := CheckKey(cfg, Some(w), now).0;
               w'.startMs <= latest' < w'.startMs + cfg.windowMs
  {
  }

  lemma LatestSnoc(times: seq<nat>)
    requires times != []
    ensures var n := |times| - 1; var before := LatestSoFar(times[..n]);
            && LatestSoFar(times)[..n] == before
            && LatestSoFar(times)[n] == if n > 0 && before[n - 1] > times[n] then before[n - 1] else times[n]
  {
  }

  lemma {:induction false} LatestFacts(cfg: Config, times: seq<nat>)
    requires cfg.windowMs >= 1
    ensures KeyAfter(cfg, LatestSoFar(times)) == KeyAfter(cfg, times)
    ensures times != [] ==>
              var latest, w := LatestSoFar(times)[|times| - 1], KeyAfter(cfg, times).value;
              w.startMs <= latest < w.startMs + cfg.windowMs
  {
    if times != [] {
      var n := |times| - 1;
      LatestSnoc(times);
      LatestFacts(cfg, times[..n]);
      hide LatestSoFar;
      if n > 0 {
        LatestStep(cfg, KeyAfter(cfg, times[..n]).value, LatestSoFar(times[..n])[n - 1], times[n]);
        hide CheckKey;
      }
    }
  }

  lemma {:induction false} LatestIsOrdered(times: seq<nat>)
    ensures Nondecreasing(LatestSoFar(times))
  {
    if times != [] {
      LatestSnoc(times);
      LatestIsOrdered(times[..|times| - 1]);
      hide LatestSoFar;
    }
  }

  /**
   Clocks are read before the lock is taken, so they need not arrive in order. It makes no difference: in
   any run each event is answered as if it had come at the latest reading so far.
   */
  lemma {:induction false} LateIsOnTime(cfg: Config, times: seq<nat>, n: nat)
    requires cfg.windowMs >= 1 && n < |times|
    ensures var latest := LatestSoFar(times);
            KeyAllowed(cfg, times[..n], times[n]) == KeyAllowed(cfg, latest[..n], latest[n])
    decreases |times|
  {
    var last := |times| - 1;
    LatestSnoc(times);
    if n < last {
      LateIsOnTime(cfg, times[..last], n);
      assert times[..last][..n] == times[..n];
      assert LatestSoFar(times)[..n] == LatestSoFar(times[..last])[..n];
    } else {
      LatestFacts(cfg, times[..n]);
      if n > 0 {
        LatestStep(cfg, KeyAfter(cfg, times[..n]).value, LatestSoFar(times[..n])[n - 1], times[n]);
      }
    }
  }

  /** So the rate bound holds of any run, by the latest readings: no window has more than `2 * max - 1` allowed events. */
  lemma RateBoundInAnyOrder(cfg: Config, times: seq<nat>, a: int)
    requires cfg.max >= 1 && cfg.windowMs >= 1
    ensures AllowedAt(cfg, times, LatestSoFar(times), a, a + cfg.windowMs) <= 2 * cfg.max - 1
  {
    LatestIsOrdered(times);
    WindowInvHolds(cfg, LatestSoFar(times), a);
    AllowedAtLatest(cfg, times, a, a + cfg.windowMs);
  }

  /** How many events were allowed whose given moments are within `lo <= moment < hi`. */
  function AllowedAt(cfg: Config, times: seq<nat>, moments: seq<nat>, lo: int, hi: int): nat
    requires |moments| == |times|
  {
    if times == [] then 0
    else
      var n := |times| - 1;
      AllowedAt(cfg, times[..n], moments[..n], lo, hi)
      + (if lo <= moments[n] < hi && KeyAllowed(cfg, times[..n], times[n]) then 1 else 0)
  }

  lemma {:induction false} AllowedAtLatest(cfg: Config, times: seq<nat>, lo: int, hi: int)
    requires cfg.windowMs >= 1
    ensures AllowedAt(cfg, times, LatestSoFar(times), lo, hi) == Count(cfg, LatestSoFar(times), lo, hi)
  {
    hide KeyAllowed;
    if times != [] {
      var n := |times| - 1;
      AllowedAtLatest(cfg, times[..n], lo, hi);
      LateIsOnTime(cfg, times, n);
      assert LatestSoFar(times)[..n] == LatestSoFar(times[..n]);
    }
  }

  /** A limit of nothing allows nothing; a window of no length forgets every event before the next. */
  lemma LimitsAtTheEdge(cfg: Config, earlier: seq<nat>, now: nat)
    ensures cfg.max == 0 ==> !KeyAllowed(cfg, earlier, now)
    ensures cfg.max >= 1 && cfg.windowMs == 0 ==> KeyAllowed(cfg, earlier, now)
  {
  }
}
