/** Round-robin selection of an upstream target, sequentially and under concurrent callers. */
module Balancer {
  import opened Base

  /** The counter is an `AtomicUsize`: it wraps at 64 bits. */
  const USIZE: nat := 0x1_0000_0000_0000_0000

  /** The counter's value at position `p`. */
  function Wrapped(p: nat): (c: nat)
    ensures c < USIZE
  {
    p % USIZE
  }

  /** The target a counter value selects. */
  function Slot(index: nat, count: nat): (i: nat)
    requires count > 0
    ensures i < count
  {
    index % count
  }

  /** The target the `p`-th `fetch_add` leads to. */
  function TargetAt(p: nat, count: nat): (i: nat)
    requires count > 0
    ensures i < count
  {
    Slot(Wrapped(p), count)
  }

  // ---------- One call ----------

  /** Scan at most `fuel` positions from `n`; the position found, or nothing. */
  function Scan(healthy: seq<bool>, n: nat, fuel: nat): Option<nat>
    requires healthy != []
    decreases fuel
  {
    if fuel == 0 then None
    else if healthy[TargetAt(n, |healthy|)] then Some(n)
    else Scan(healthy, n + 1, fuel - 1)
  }

  /** The position a call takes: the first healthy one within one round, else the one after the round. */
  function Position(healthy: seq<bool>, n: nat): (p: nat)
    requires healthy != []
  {
    match Scan(healthy, n, |healthy|)
    case Some(p) => p
    case None => n + |healthy|
  }

  /** A route's targets: their health flags, which health checks update, and the shared counter. */
  class Route {
    var healthy: seq<bool>
    var next: nat

    ghost predicate Valid()
      reads this
    {
      next < USIZE
    }

    constructor (count: nat)
      ensures Valid() && next == 0 && healthy == seq(count, _ => true)
    {
      healthy := seq(count, _ => true);
      next := 0;
    }

    method FetchAdd() returns (old_: nat)
      requires Valid()
      modifies this`next
      ensures Valid() && old_ == old(next) && next == Wrapped(old(next) + 1)
    {
      old_ := next;
      next := (next + 1) % USIZE;
    }

    method NextTarget() returns (r: Option<nat>)
      requires Valid()
      modifies this`next
      ensures Valid()
      ensures healthy == [] ==> r == None && next == old(next)
      ensures healthy != [] ==>
        var p := Position(healthy, old(next));
        r == Some(TargetAt(p, |healthy|)) && next == Wrapped(p + 1)
    {
      var count := |healthy|;
      if count == 0 {
        return None;
      }
      ghost var n, up, p := next, healthy, next;
      StartCounter(n);
      hide *;
      for tries := 0 to count
        invariant Valid() && next == Wrapped(p) && p == n + tries
        invariant Scan(up, n, count) == Scan(up, p, count - tries)
      {
        var index := FetchAdd();
        NextCounter(p, count);
        ScanStep(up, n, p, count - tries);
        if healthy[Slot(index, count)] {
          return Some(Slot(index, count));
        }
        p := p + 1;
      }
      var index := FetchAdd();
      NextCounter(p, count);
      ScanEnd(up, n, p);
      return Some(Slot(index, count));
    }
  }

  lemma StartCounter(n: nat)
    requires n < USIZE
    ensures Wrapped(n) == n
  {
  }

  /** One more try, which either ends the call that started at `n` or not. */
  lemma ScanStep(healthy: seq<bool>, n: nat, p: nat, fuel: nat)
    requires healthy != [] && fuel > 0
    ensures healthy[TargetAt(p, |healthy|)] && Scan(healthy, n, |healthy|) == Scan(healthy, p, fuel) ==> Position(healthy, n) == p
    ensures !healthy[TargetAt(p, |healthy|)] ==> Scan(healthy, p, fuel) == Scan(healthy, p + 1, fuel - 1)
  {
  }

  lemma ScanEnd(healthy: seq<bool>, n: nat, p: nat)
    requires healthy != [] && p == n + |healthy|
    ensures Scan(healthy, n, |healthy|) == Scan(healthy, p, 0) ==> Position(healthy, n) == p
  {
  }

  // ---------- Arithmetic of rounds ----------

  /** The counter after position `p`, and the target it leads to. */
  lemma NextCounter(p: nat, count: nat)
    requires count > 0
    ensures Wrapped(Wrapped(p) + 1) == Wrapped(p + 1)
    ensures Slot(Wrapped(p), count) == TargetAt(p, count)
  {
    ModSucc(p, USIZE);
  }

  lemma ModOf(x: int, m: nat, q: int, r: nat)
    requires r < m && x == m * q + r
    ensures x % m == r && x / m == q
  {
    var q', r' := x / m, x % m;
    assert x == m * q' + r';
    if q > q' {
      MulStep(m, q', q);
    } else if q < q' {
      MulStep(m, q, q');
    }
  }

  lemma MulStep(m: nat, a: int, b: int)
    requires a < b
    ensures m * a + m <= m * b
  {
    assert m * (b - a - 1) >= 0;
    assert m * b == m * a + m + m * (b - a - 1);
  }

  lemma ModSucc(x: nat, m: nat)
    requires m > 0
    ensures (x + 1) % m == (x % m + 1) % m
    ensures (x + 1) % m == if x % m + 1 == m then 0 else x % m + 1
  {
    var q, r := x / m, x % m;
    assert x == m * q + r;
    if r + 1 == m {
      assert m * (q + 1) == m * q + m;
      ModOf(x + 1, m, q + 1, 0);
      ModOf(m, m, 1, 0);
    } else {
      ModOf(x + 1, m, q, r + 1);
      ModOf(r + 1, m, 0, r + 1);
    }
  }

  lemma ModAdd(x: nat, m: nat)
    requires m > 0
    ensures (x + m) % m == x % m
  {
    var q, r := x / m, x % m;
    assert m * (q + 1) == m * q + m;
    ModOf(x + m, m, q + 1, r);
  }

  /** The one position of target `i` in the round that starts at `n`. */
  function PositionOf(i: nat, n: nat, count: nat): nat
    requires i < count
  {
    if i >= n % count then n + i - n % count else n + count + i - n % count
  }

  lemma PositionOfFacts(i: nat, n: nat, count: nat)
    requires i < count
    ensures n <= PositionOf(i, n, count) < n + count
    ensures PositionOf(i, n, count) % count == i
  {
    var q, r := n / count, n % count;
    assert n == count * q + r;
    if i >= r {
      ModOf(n + i - r, count, q, i);
    } else {
      assert count * q + count == count * (q + 1);
      ModOf(n + count + i - r, count, q + 1, i);
    }
  }

  lemma PositionUnique(p: nat, n: nat, count: nat)
    requires count > 0 && n <= p < n + count
    ensures PositionOf(p % count, n, count) == p
  {
    var i := p % count;
    var p' := PositionOf(i, n, count);
    PositionOfFacts(i, n, count);
    var q, q' := p / count, p' / count;
    assert p == count * q + i && p' == count * q' + i;
    if q < q' {
      MulStep(count, q, q');
    } else if q' < q {
      MulStep(count, q', q);
    }
  }

  // ---------- The wrap of the counter ----------

  /** No wrap among the `k` positions from `n`, or none that shows. */
  predicate Seamless(n: nat, k: nat, count: nat)
    requires count > 0
  {
    n + k <= USIZE || USIZE % count == 0
  }

  lemma TargetAtSeamless(n: nat, k: nat, p: nat, count: nat)
    requires count > 0 && Seamless(n, k, count) && p < n + k
    ensures TargetAt(p, count) == p % count
  {
    if p >= USIZE {
      var d, w, p0 := USIZE / count, p / USIZE, p % USIZE;
      var q, r := p0 / count, p0 % count;
      assert p == USIZE * w + p0 && p0 == count * q + r && USIZE == count * d;
      assert count * (d * w + q) == count * d * w + count * q;
      ModOf(p, count, d * w + q, r);
    }
  }

  lemma TargetAtWraps(p: nat, count: nat)
    requires count > 0
    ensures TargetAt(p + USIZE, count) == TargetAt(p, count)
  {
    ModAdd(p, USIZE);
  }

  lemma {:induction false} ScanWraps(healthy: seq<bool>, n: nat, fuel: nat)
    requires healthy != []
    ensures Scan(healthy, n + USIZE, fuel)
         == match Scan(healthy, n, fuel) case Some(p) => Some(p + USIZE) case None => None
    decreases fuel
  {
    hide TargetAt;
    TargetAtWraps(n, |healthy|);
    if fuel > 0 {
      ScanWraps(healthy, n + 1, fuel - 1);
    }
  }

  lemma {:induction false} PicksWrap(healthy: seq<bool>, n: nat, k: nat)
    requires healthy != []
    ensures Picks(healthy, n + USIZE, k) == Picks(healthy, n, k)
    decreases k
  {
    hide TargetAt;
    if k > 0 {
      ScanWraps(healthy, n, |healthy|);
      TargetAtWraps(Position(healthy, n), |healthy|);
      PicksWrap(healthy, Position(healthy, n) + 1, k - 1);
    }
  }

  /** Counting positions past 2^64 is harmless: only the counter itself, wrapped, decides what calls return. */
  lemma {:induction false} WrapInvisible(healthy: seq<bool>, n: nat, k: nat)
    requires healthy != []
    ensures Picks(healthy, n, k) == Picks(healthy, n % USIZE, k)
    decreases n
  {
    hide Picks;
    if n >= USIZE {
      PicksWrap(healthy, n - USIZE, k);
      ModAdd(n - USIZE, USIZE);
      WrapInvisible(healthy, n - USIZE, k);
    }
  }

  // ---------- Consecutive calls ----------

  /** The targets of `k` consecutive calls from counter `n`, with health unchanged. */
  function Picks(healthy: seq<bool>, n: nat, k: nat): (picks: seq<nat>)
    requires healthy != []
    ensures |picks| == k
    decreases k
  {
    if k == 0 then []
    else var p := Position(healthy, n); [TargetAt(p, |healthy|)] + Picks(healthy, p + 1, k - 1)
  }

  function HealthySet(healthy: seq<bool>): set<nat> {
    set i | 0 <= i < |healthy| && healthy[i]
  }

  lemma {:induction false} ScanFacts(healthy: seq<bool>, n: nat, fuel: nat)
    requires healthy != []
    ensures match Scan(healthy, n, fuel)
            case Some(p) =>
              && n <= p < n + fuel && healthy[TargetAt(p, |healthy|)]
              && forall q | n <= q < p :: !healthy[TargetAt(q, |healthy|)]
            case None => forall q | n <= q < n + fuel :: !healthy[TargetAt(q, |healthy|)]
    decreases fuel
  {
    if fuel > 0 && !healthy[TargetAt(n, |healthy|)] {
      ScanFacts(healthy, n + 1, fuel - 1);
    }
  }

  /**
   Every target's turn comes among `count + 1` consecutive positions, if they do not cross the wrap,
   or if the wrap shifts the rotation by at most one place.
   */
  lemma TurnComes(n: nat, i: nat, count: nat) returns (p: nat)
    requires i < count && (n % USIZE + count <= USIZE || USIZE % count <= 1)
    ensures n <= p <= n + count && TargetAt(p, count) == i
  {
    var n0, w := n % USIZE, n / USIZE;
    assert n == USIZE * w + n0;
    if n0 + count <= USIZE {
      PositionOfFacts(i, n0, count);
      var p0 := PositionOf(i, n0, count);
      p := USIZE * w + p0;
      ModOf(p, USIZE, w, p0);
    } else {
      var k, r, a := USIZE / count, USIZE % count, USIZE - n0;
      assert USIZE == count * k + r;
      if i <= count - a {
        p := USIZE * w + (USIZE + i);
        if count > USIZE {
          ModOf(USIZE, count, 0, USIZE);
        }
        assert USIZE * (w + 1) == USIZE * w + USIZE;
        ModOf(p, USIZE, w + 1, i);
        ModOf(i, count, 0, i);
      } else {
        var p0 := USIZE - (count + r - i);
        p := USIZE * w + p0;
        ModOf(p, USIZE, w, p0);
        assert count * (k - 1) == count * k - count;
        ModOf(p0, count, k - 1, i);
      }
    }
  }

  /**
   Undisturbed, a call returns a healthy target exactly when there is one: from a counter that does
   not wrap within the call, or for a number of targets that leaves at most 1 when it divides 2^64.
   */
  lemma HealthyIfAny(healthy: seq<bool>, n: nat)
    requires healthy != [] && (n % USIZE + |healthy| <= USIZE || USIZE % |healthy| <= 1)
    ensures healthy[TargetAt(Position(healthy, n), |healthy|)] <==> HealthySet(healthy) != {}
  {
    hide TargetAt;
    ScanFacts(healthy, n, |healthy|);
    if i :| i in HealthySet(healthy) {
      var p := TurnComes(n, i, |healthy|);
    } else {
      assert forall i | 0 <= i < |healthy| && healthy[i] :: i in HealthySet(healthy);
    }
  }

  /** Only the last target is healthy. */
  function LastUp(count: nat): seq<bool> {
    seq(count, i => i == count - 1)
  }

  /** Two positions before the wrap, the last target's turn does not come within the call. */
  lemma WrapSkipsLast(count: nat)
    requires 0 < count < USIZE && USIZE % count >= 2
    ensures Position(LastUp(count), USIZE - 2) == USIZE - 2 + count
    ensures TargetAt(USIZE - 2 + count, count) == count - 2
  {
    var n, k, r := USIZE - 2, USIZE / count, USIZE % count;
    assert USIZE == count * k + r;
    forall q | n <= q <= n + count ensures TargetAt(q, count) != count - 1 {
      if q < USIZE {
        ModOf(q, count, k, r - (USIZE - q));
      } else {
        ModOf(q, USIZE, 1, q - USIZE);
        ModOf(q - USIZE, count, 0, q - USIZE);
      }
    }
    ModOf(n + count, USIZE, 1, count - 2);
    ModOf(count - 2, count, 0, count - 2);
    ScanFacts(LastUp(count), n, count);
  }

  predicate PicksHealthy(healthy: seq<bool>, n: nat)
    requires healthy != []
  {
    healthy[TargetAt(Position(healthy, n), |healthy|)]
  }

  /**
   The exact condition: undisturbed calls return a healthy target whenever there is one, from every
   counter value, if and only if the number of targets leaves a remainder of at most 1 in 2^64.
   */
  lemma HealthyExactly(count: nat)
    requires 0 < count < USIZE
    ensures (forall healthy, n | |healthy| == count && HealthySet(healthy) != {} :: PicksHealthy(healthy, n))
       <==> USIZE % count <= 1
  {
    hide TargetAt;
    hide Position;
    hide HealthySet;
    if USIZE % count <= 1 {
      forall healthy: seq<bool>, n: nat | |healthy| == count && HealthySet(healthy) != {}
        ensures PicksHealthy(healthy, n)
      {
        HealthyIfAny(healthy, n);
      }
    } else {
      WrapSkipsLast(count);
      assert count - 1 in HealthySet(LastUp(count)) by { LastIsUp(count); }
      assert !PicksHealthy(LastUp(count), USIZE - 2);
    }
  }

  lemma LastIsUp(count: nat)
    requires count > 0
    ensures count - 1 in HealthySet(LastUp(count))
  {
  }

  /** The healthy targets whose turn in the round from `n` comes before `c`. */
  function Served(healthy: seq<bool>, n: nat, c: nat): set<nat> {
    set i | 0 <= i < |healthy| && healthy[i] && PositionOf(i, n, |healthy|) < c
  }

  lemma OneMoreServed(healthy: seq<bool>, n: nat, c: nat)
    requires healthy != [] && n <= c <= n + |healthy| && Seamless(n, |healthy|, |healthy|)
    requires Served(healthy, n, c) != HealthySet(healthy)
    ensures var p := Position(healthy, c); var i := TargetAt(p, |healthy|);
            && c <= p < n + |healthy|
            && i in HealthySet(healthy) && i !in Served(healthy, n, c)
            && Served(healthy, n, p + 1) == Served(healthy, n, c) + {i}
  {
    hide TargetAt;
    hide PositionOf;
    var count := |healthy|;
    var j :| j in HealthySet(healthy) && j !in Served(healthy, n, c);
    TurnOf(healthy, n, j);
    ScanFacts(healthy, c, count);
    var p := Position(healthy, c);
    assert c <= p <= PositionOf(j, n, count);
    var i := TargetAt(p, count);
    TargetAtSeamless(n, count, p, count);
    PositionUnique(p, n, count);
    forall x | x in Served(healthy, n, p + 1) ensures x in Served(healthy, n, c) || x == i {
      TurnOf(healthy, n, x);
      var px := PositionOf(x, n, count);
      if px >= c {
        assert px == p;
      }
    }
  }

  /** Within a seamless round, the turn of `i` leads to `i`. */
  lemma TurnOf(healthy: seq<bool>, n: nat, i: nat)
    requires i < |healthy| && Seamless(n, |healthy|, |healthy|)
    ensures var p := PositionOf(i, n, |healthy|); n <= p < n + |healthy| && TargetAt(p, |healthy|) == i
  {
    PositionOfFacts(i, n, |healthy|);
    TargetAtSeamless(n, |healthy|, PositionOf(i, n, |healthy|), |healthy|);
  }

  lemma {:induction false} RestOfRound(healthy: seq<bool>, n: nat, c: nat, k: nat)
    requires healthy != [] && n <= c <= n + |healthy| && Seamless(n, |healthy|, |healthy|)
    requires k == |HealthySet(healthy) - Served(healthy, n, c)|
    ensures multiset(Picks(healthy, c, k)) == multiset(HealthySet(healthy) - Served(healthy, n, c))
    decreases k
  {
    hide Served;
    hide HealthySet;
    hide Position;
    hide TargetAt;
    var rest := HealthySet(healthy) - Served(healthy, n, c);
    if k > 0 {
      OneMoreServed(healthy, n, c);
      var p := Position(healthy, c);
      var i := TargetAt(p, |healthy|);
      assert HealthySet(healthy) - Served(healthy, n, p + 1) == rest - {i};
      RestOfRound(healthy, n, p + 1, k - 1);
      assert multiset(rest) == multiset(rest - {i}) + multiset{i};
    } else {
      assert rest == {};
    }
  }

  /**
   Fairness under failures: from any counter value whose round is seamless, as many consecutive calls
   as there are healthy targets return each healthy target exactly once.
   */
  lemma FairRound(healthy: seq<bool>, n: nat)
    requires healthy != [] && Seamless(n, |healthy|, |healthy|)
    ensures multiset(Picks(healthy, n, |HealthySet(healthy)|)) == multiset(HealthySet(healthy))
  {
    assert Served(healthy, n, n) == {} by {
      forall i | 0 <= i < |healthy| ensures PositionOf(i, n, |healthy|) >= n {
        PositionOfFacts(i, n, |healthy|);
      }
    }
    assert HealthySet(healthy) - {} == HealthySet(healthy);
    RestOfRound(healthy, n, n, |HealthySet(healthy)|);
  }

  function AllUp(count: nat): seq<bool> {
    seq(count, _ => true)
  }

  lemma {:induction false} RotationWhenAllUp(count: nat, n: nat, k: nat, j: nat)
    requires count > 0 && j < k
    ensures Picks(AllUp(count), n, k)[j] == TargetAt(n + j, count)
    decreases k
  {
    hide TargetAt;
    assert Position(AllUp(count), n) == n;
    if j > 0 {
      RotationWhenAllUp(count, n + 1, k - 1, j - 1);
    }
  }

  lemma PositionWhenAllDown(healthy: seq<bool>, n: nat)
    requires healthy != [] && HealthySet(healthy) == {}
    ensures Position(healthy, n) == n + |healthy|
  {
    assert forall i | 0 <= i < |healthy| :: i !in HealthySet(healthy) && !healthy[i];
    ScanFacts(healthy, n, |healthy|);
  }

  /** With every target down, each call burns a whole round and one step more: the fallback still rotates. */
  lemma {:induction false} RotationWhenAllDown(healthy: seq<bool>, n: nat, k: nat, j: nat)
    requires healthy != [] && HealthySet(healthy) == {} && j < k
    ensures Picks(healthy, n, k)[j] == TargetAt(n + j * (|healthy| + 1) + |healthy|, |healthy|)
    decreases k
  {
    hide Position;
    hide HealthySet;
    hide TargetAt;
    var count := |healthy|;
    PositionWhenAllDown(healthy, n);
    if j > 0 {
      RotationWhenAllDown(healthy, n + count + 1, k - 1, j - 1);
      assert j * (count + 1) == (j - 1) * (count + 1) + (count + 1);
    }
  }

  /** Where the `j`-th of consecutive fallbacks ends: `j` whole rounds and `j` places further. */
  lemma FallbackPlace(n: nat, j: nat, count: nat)
    ensures n + j * (count + 1) + count == count * (j + 1) + (n + j)
    ensures j < count ==> (j + 1) * (count + 1) <= count * (count + 1)
  {
    assert j * (count + 1) == count * j + j;
    assert count * (j + 1) == count * j + count;
    if j < count {
      MulMonotone(j + 1, count, count + 1);
    }
  }

  lemma ModSkips(x: nat, w: nat, m: nat)
    requires m > 0
    ensures (m * w + x) % m == x % m
  {
    var q, r := x / m, x % m;
    assert x == m * q + r;
    assert m * (w + q) == m * w + m * q;
    ModOf(m * w + x, m, w + q, r);
  }

  lemma FallbackTarget(n: nat, j: nat, count: nat)
    requires j < count && Seamless(n, count * (count + 1), count)
    ensures TargetAt(n + j * (count + 1) + count, count) == (n + j) % count
  {
    hide TargetAt;
    var p := n + j * (count + 1) + count;
    FallbackPlace(n, j, count);
    assert (j + 1) * (count + 1) == j * (count + 1) + count + 1;
    TargetAtSeamless(n, count * (count + 1), p, count);
    ModSkips(n + j, j + 1, count);
  }

  lemma MulMonotone(a: nat, b: nat, m: nat)
    requires a <= b
    ensures a * m <= b * m
  {
  }

  /** With every target down, any `count` consecutive calls return every target exactly once. */
  lemma FairFallback(healthy: seq<bool>, n: nat)
    requires healthy != [] && HealthySet(healthy) == {}
    requires Seamless(n, |healthy| * (|healthy| + 1), |healthy|)
    ensures multiset(Picks(healthy, n, |healthy|)) == multiset(HealthySet(AllUp(|healthy|)))
  {
    hide TargetAt;
    var count := |healthy|;
    assert count * (count + 1) == count * count + count && count * count >= 0;
    AllUpSize(count);
    FairRound(AllUp(count), n);
    forall j | 0 <= j < count ensures Picks(healthy, n, count)[j] == Picks(AllUp(count), n, count)[j] {
      RotationWhenAllDown(healthy, n, count, j);
      FallbackTarget(n, j, count);
      RotationWhenAllUp(count, n, count, j);
      TargetAtSeamless(n, count, n + j, count);
    }
    assert Picks(healthy, n, count) == Picks(AllUp(count), n, count);
  }

  // ---------- Fairness over the wrap ----------

  predicate Fair(healthy: seq<bool>, n: nat)
    requires healthy != []
  {
    multiset(Picks(healthy, n, |HealthySet(healthy)|)) == multiset(HealthySet(healthy))
  }

  /** The round that starts one position before the wrap leaves the last target out, unless the wrap is seamless. */
  lemma WrapIsUnfair(count: nat)
    requires 0 < count < USIZE && USIZE % count != 0
    ensures !Fair(AllUp(count), USIZE - 1)
  {
    var k, r := USIZE / count, USIZE % count;
    assert USIZE == count * k + r;
    AllUpSize(count);
    var picks := Picks(AllUp(count), USIZE - 1, count);
    forall j | 0 <= j < count ensures picks[j] != count - 1 {
      RotationWhenAllUp(count, USIZE - 1, count, j);
      if j == 0 {
        ModOf(USIZE - 1, count, k, r - 1);
      } else {
        ModOf(USIZE - 1 + j, USIZE, 1, j - 1);
        ModOf(j - 1, count, 0, j - 1);
      }
    }
    assert count - 1 !in picks && count - 1 in HealthySet(AllUp(count));
    assert multiset(picks)[count - 1] == 0 && multiset(HealthySet(AllUp(count)))[count - 1] == 1;
  }

  /**
   The exact condition: rounds are fair from every counter value, whatever targets are down, if and
   only if the number of targets divides 2^64.
   */
  lemma FairExactly(count: nat)
    requires 0 < count < USIZE
    ensures (forall healthy, n | |healthy| == count :: Fair(healthy, n)) <==> USIZE % count == 0
  {
    if USIZE % count == 0 {
      forall healthy: seq<bool>, n: nat | |healthy| == count ensures Fair(healthy, n) {
        FairRound(healthy, n);
      }
    } else {
      WrapIsUnfair(count);
    }
  }

  function AllDown(count: nat): seq<bool> {
    seq(count, _ => false)
  }

  predicate FairWhenDown(count: nat, n: nat)
    requires count > 0
  {
    multiset(Picks(AllDown(count), n, count)) == multiset(HealthySet(AllUp(count)))
  }

  /** One round and one position before the wrap, the fallback leaves the last target out. */
  lemma WrapIsUnfairWhenDown(count: nat)
    requires 0 < count && count * (count + 1) < USIZE && USIZE % count != 0
    ensures !FairWhenDown(count, USIZE - 1 - count)
  {
    var k, r, n := USIZE / count, USIZE % count, USIZE - 1 - count;
    assert USIZE == count * k + r;
    var picks := Picks(AllDown(count), n, count);
    forall j | 0 <= j < count ensures picks[j] != count - 1 {
      RotationWhenAllDown(AllDown(count), n, count, j);
      if j == 0 {
        ModOf(USIZE - 1, count, k, r - 1);
      } else {
        FallbackAfterWrap(count, j);
      }
    }
    assert count - 1 !in picks && count - 1 in HealthySet(AllUp(count));
    assert multiset(picks)[count - 1] == 0 && multiset(HealthySet(AllUp(count)))[count - 1] == 1;
  }

  lemma FallbackAfterWrap(count: nat, j: nat)
    requires 0 < j < count && count * (count + 1) < USIZE
    ensures TargetAt(USIZE - 1 - count + j * (count + 1) + count, count) == j - 1
  {
    var p := count * j + (j - 1);
    FallbackPlace(0, j, count);
    assert j * (count + 1) == count * j + j;
    assert USIZE - 1 - count + j * (count + 1) + count == USIZE + p;
    assert (j + 1) * (count + 1) == j * (count + 1) + count + 1;
    ModOf(USIZE + p, USIZE, 1, p);
    ModOf(p, count, j, j - 1);
  }

  /** With every target down, too, calls are fair from every counter value exactly when the count divides 2^64. */
  lemma FallbackExactly(count: nat)
    requires 0 < count && count * (count + 1) < USIZE
    ensures (forall n :: FairWhenDown(count, n)) <==> USIZE % count == 0
  {
    if USIZE % count == 0 {
      forall n: nat ensures FairWhenDown(count, n) {
        assert HealthySet(AllDown(count)) == {};
        FairFallback(AllDown(count), n);
      }
    } else {
      assert count * (count + 1) == count * count + count && count * count >= 0;
      WrapIsUnfairWhenDown(count);
    }
  }

  lemma {:induction false} AllUpSize(count: nat)
    ensures |HealthySet(AllUp(count))| == count
  {
    if count > 0 {
      AllUpSize(count - 1);
      assert HealthySet(AllUp(count)) == HealthySet(AllUp(count - 1)) + {count - 1};
    }
  }

  /** Rotation survives the wrap of the counter exactly when the number of targets divides 2^64. */
  lemma WrapKeepsRotation(count: nat)
    requires count > 0
    ensures (forall p: nat :: TargetAt(p + 1, count) == (TargetAt(p, count) + 1) % count) <==> USIZE % count == 0
  {
    ModSucc(USIZE - 1, count);
    assert TargetAt(USIZE - 1, count) == (USIZE - 1) % count;
    assert TargetAt(USIZE - 1 + 1, count) == 0;
    if USIZE % count == 0 {
      forall p: nat ensures TargetAt(p + 1, count) == (TargetAt(p, count) + 1) % count {
        ModSucc(p, USIZE);
        ModSucc(p % USIZE, count);
      }
    }
  }

  // ---------- Concurrent callers ----------

  /** Where a caller is: about to take a position after some failed tries, or about to check its health. */
  datatype Phase = Idle | Taking(tries: nat) | Checking(tries: nat, p: nat)

  /**
   `returned` holds the positions whose targets were returned, and `calls` counts the returns;
   `takers` names the caller that took each position so far.
   */
  datatype State = State(
    next: nat, healthy: seq<bool>, threads: map<nat, Phase>, returned: set<nat>, calls: nat, takers: map<nat, nat>)

  /** Steps of a caller, and a health check setting one target's flag. */
  datatype Action = Call | FetchAdd | Check | SetHealth(i: nat, up: bool)

  function PhaseOf(s: State, t: nat): Phase {
    if t in s.threads then s.threads[t] else Idle
  }

  predicate Enabled(s: State, t: nat, a: Action) {
    match a
    case Call => PhaseOf(s, t).Idle?
    case FetchAdd => PhaseOf(s, t).Taking?
    case Check => PhaseOf(s, t).Checking?
    case SetHealth(i, _) => i < |s.healthy|
  }

  function Return(s: State, t: nat, p: nat): State {
    s.(threads := s.threads[t := Idle], returned := s.returned + {p}, calls := s.calls + 1)
  }

  function Apply(s: State, t: nat, a: Action): State
    requires s.healthy != [] && Enabled(s, t, a)
  {
    match a
    case Call => s.(threads := s.threads[t := Taking(0)])
    case FetchAdd =>
      var s', tries := s.(next := s.next + 1, takers := s.takers[s.next := t]), s.threads[t].tries;
      if tries < |s.healthy| then s'.(threads := s.threads[t := Checking(tries, s.next)]) else Return(s', t, s.next)
    case Check =>
      var ph := s.threads[t];
      if s.healthy[TargetAt(ph.p, |s.healthy|)] then Return(s, t, ph.p)
      else s.(threads := s.threads[t := Taking(ph.tries + 1)])
    case SetHealth(i, up) => s.(healthy := s.healthy[i := up])
  }

  /** The position whose target a step returns, if it ends a call. */
  function Returns(s: State, t: nat, a: Action): Option<nat>
    requires s.healthy != [] && Enabled(s, t, a)
  {
    match a
    case FetchAdd => if s.threads[t].tries < |s.healthy| then None else Some(s.next)
    case Check => if s.healthy[TargetAt(s.threads[t].p, |s.healthy|)] then Some(s.threads[t].p) else None
    case _ => None
  }

  datatype Turn = Turn(thread: nat, action: Action)

  function Start(start: nat, healthy: seq<bool>): State {
    State(start, healthy, map[], {}, 0, map[])
  }

  ghost predicate Run(start: nat, states: seq<State>, turns: seq<Turn>) {
    && |states| == |turns| + 1
    && states[0] == Start(start, states[0].healthy)
    && (forall s | s in states :: s.healthy != [])
    && forall i | 0 <= i < |turns| ::
         && Enabled(states[i], turns[i].thread, turns[i].action)
         && states[i + 1] == Apply(states[i], turns[i].thread, turns[i].action)
  }

  /** A run during which no target's health changes. */
  ghost predicate SteadyRun(healthy: seq<bool>, start: nat, states: seq<State>, turns: seq<Turn>) {
    Run(start, states, turns) && forall s | s in states :: s.healthy == healthy
  }

  /** All up: every position taken is either returned or still in one caller's hands. */
  ghost predicate Accounted(count: nat, start: nat, s: State) {
    && start <= s.next && s.healthy == AllUp(count)
    && |s.returned| == s.calls
    && (forall p | p in s.returned :: start <= p < s.next)
    && (forall p | start <= p < s.next :: p in s.returned || exists t :: t in s.threads && InHand(s.threads[t], p))
    && (forall t | t in s.threads && s.threads[t].Taking? :: s.threads[t].tries == 0)
    && (forall t | t in s.threads && s.threads[t].Checking? ::
          start <= s.threads[t].p < s.next && s.threads[t].p !in s.returned)
    && (forall t, u | t in s.threads && u in s.threads && t != u && s.threads[t].Checking? && s.threads[u].Checking? ::
          s.threads[t].p != s.threads[u].p)
  }

  predicate InHand(ph: Phase, p: nat) {
    ph.Checking? && ph.p == p
  }

  lemma TakeKeepsAccount(count: nat, start: nat, s: State, t: nat)
    requires count > 0 && Accounted(count, start, s) && Enabled(s, t, FetchAdd)
    ensures Accounted(count, start, Apply(s, t, FetchAdd))
  {
    hide TargetAt;
    var s' := Apply(s, t, FetchAdd);
    assert s' == s.(next := s.next + 1, threads := s.threads[t := Checking(0, s.next)], takers := s.takers[s.next := t]);
    forall p | start <= p < s'.next && p !in s'.returned
      ensures exists u :: u in s'.threads && InHand(s'.threads[u], p)
    {
      if p == s.next {
        assert InHand(s'.threads[t], p);
      } else {
        var u :| u in s.threads && InHand(s.threads[u], p);
        assert u in s'.threads && InHand(s'.threads[u], p);
      }
    }
  }

  lemma CheckKeepsAccount(count: nat, start: nat, s: State, t: nat)
    requires count > 0 && Accounted(count, start, s) && Enabled(s, t, Check)
    ensures Accounted(count, start, Apply(s, t, Check))
  {
    hide TargetAt;
    var s' := Apply(s, t, Check);
    assert s' == Return(s, t, s.threads[t].p);
    forall p | start <= p < s'.next && p !in s'.returned
      ensures exists u :: u in s'.threads && InHand(s'.threads[u], p)
    {
      var u :| u in s.threads && InHand(s.threads[u], p);
      assert u in s'.threads && InHand(s'.threads[u], p);
    }
  }

  lemma CallKeepsAccount(count: nat, start: nat, s: State, t: nat)
    requires count > 0 && Accounted(count, start, s) && Enabled(s, t, Call)
    ensures Accounted(count, start, Apply(s, t, Call))
  {
    var s' := Apply(s, t, Call);
    forall p | start <= p < s'.next && p !in s'.returned
      ensures exists u :: u in s'.threads && InHand(s'.threads[u], p)
    {
      var u :| u in s.threads && InHand(s.threads[u], p);
      assert u in s'.threads && InHand(s'.threads[u], p);
    }
  }

  lemma {:induction false} RunKeepsAccount(count: nat, start: nat, states: seq<State>, turns: seq<Turn>, n: nat)
    requires SteadyRun(AllUp(count), start, states, turns) && n <= |turns|
    ensures Accounted(count, start, states[n])
  {
    hide Accounted;
    hide Apply;
    hide Enabled;
    if n == 0 {
      assert Accounted(count, start, Start(start, AllUp(count))) by { InitAccount(count, start); }
    } else {
      var t := turns[n - 1].thread;
      RunKeepsAccount(count, start, states, turns, n - 1);
      match turns[n - 1].action {
        case Call => CallKeepsAccount(count, start, states[n - 1], t);
        case FetchAdd => TakeKeepsAccount(count, start, states[n - 1], t);
        case Check => CheckKeepsAccount(count, start, states[n - 1], t);
        case SetHealth(_, _) => SetHealthKeepsAccount(count, start, states[n - 1], t, turns[n - 1].action, states[n]);
      }
    }
  }

  lemma SetHealthKeepsAccount(count: nat, start: nat, s: State, t: nat, a: Action, s': State)
    requires Accounted(count, start, s) && a.SetHealth? && count > 0
    requires Enabled(s, t, a) && s' == Apply(s, t, a) && s'.healthy == AllUp(count)
    ensures Accounted(count, start, s')
  {
    assert s' == s;
  }

  lemma InitAccount(count: nat, start: nat)
    ensures Accounted(count, start, Start(start, AllUp(count)))
  {
  }

  /** The `k` positions from `n`. */
  function Range(n: nat, k: nat): (r: set<nat>)
    ensures |r| == k && forall p :: p in r <==> n <= p < n + k
  {
    if k == 0 then {} else Range(n, k - 1) + {n + k - 1}
  }

  /** How many of the `k` positions from `n` lead to target `i`. */
  function Hits(n: nat, k: nat, i: nat, count: nat): nat
    requires count > 0
  {
    if k == 0 then 0 else Hits(n, k - 1, i, count) + (if (n + k - 1) % count == i then 1 else 0)
  }

  lemma {:induction false} HitsWithinRound(n: nat, k: nat, i: nat, count: nat)
    requires i < count && k <= count
    ensures Hits(n, k, i, count) == if PositionOf(i, n, count) < n + k then 1 else 0
  {
    PositionOfFacts(i, n, count);
    if k > 0 {
      HitsWithinRound(n, k - 1, i, count);
      PositionUnique(n + k - 1, n, count);
    }
  }

  lemma {:induction false} HitsSkipRound(n: nat, k: nat, i: nat, count: nat)
    requires i < count
    ensures Hits(n, count + k, i, count) == 1 + Hits(n + count, k, i, count)
  {
    if k == 0 {
      HitsWithinRound(n, count, i, count);
      PositionOfFacts(i, n, count);
    } else {
      HitsSkipRound(n, k - 1, i, count);
    }
  }

  lemma {:induction false} HitsBalanced(n: nat, k: nat, i: nat, count: nat)
    requires i < count
    ensures k / count <= Hits(n, k, i, count) <= (k + count - 1) / count
    decreases k
  {
    if k < count {
      HitsWithinRound(n, k, i, count);
      ModOf(k, count, 0, k);
      if k > 0 {
        ModOf(k + count - 1, count, 1, k - 1);
      } else {
        ModOf(count - 1, count, 0, count - 1);
      }
    } else {
      HitsSkipRound(n, k - count, i, count);
      HitsBalanced(n + count, k - count, i, count);
      DivSkip(k - count, count);
      DivSkip(k - 1, count);
    }
  }

  lemma DivSkip(x: nat, m: nat)
    requires m > 0
    ensures (x + m) / m == x / m + 1
  {
    assert x == m * (x / m) + x % m;
    assert m * (x / m + 1) == m * (x / m) + m;
    ModOf(x + m, m, x / m + 1, x % m);
  }

  /** Those positions themselves. */
  function HitSet(n: nat, k: nat, i: nat, count: nat): (r: set<nat>)
    requires count > 0
    ensures |r| == Hits(n, k, i, count)
    ensures forall p :: p in r <==> n <= p < n + k && p % count == i
  {
    if k == 0 then {}
    else
      var before := HitSet(n, k - 1, i, count);
      var last := n + k - 1;
      assert last !in before;
      if last % count == i then before + {last} else before
  }

  /** The calls that returned target `i`, by the position each used. */
  function PicksOf(s: State, i: nat, count: nat): set<nat>
    requires count > 0
  {
    set p | p in s.returned && TargetAt(p, count) == i
  }

  /**
   Concurrent balance: with all targets up, when no call is under way, every interleaving has given
   each target the floor or the ceiling of its share of the calls.
   */
  lemma ConcurrentBalance(count: nat, start: nat, states: seq<State>, turns: seq<Turn>, n: nat, i: nat)
    requires SteadyRun(AllUp(count), start, states, turns) && n <= |turns| && i < count
    requires forall t | t in states[n].threads :: !states[n].threads[t].Checking?
    requires states[n].next <= USIZE || USIZE % count == 0
    ensures var calls := states[n].calls;
            calls / count <= |PicksOf(states[n], i, count)| <= (calls + count - 1) / count
  {
    hide TargetAt;
    hide PicksOf;
    var s := states[n];
    RunKeepsAccount(count, start, states, turns, n);
    hide SteadyRun;
    QuietBalance(count, start, s, i);
  }

  lemma QuietBalance(count: nat, start: nat, s: State, i: nat)
    requires Accounted(count, start, s) && i < count
    requires forall t | t in s.threads :: !s.threads[t].Checking?
    requires s.next <= USIZE || USIZE % count == 0
    ensures s.calls / count <= |PicksOf(s, i, count)| <= (s.calls + count - 1) / count
  {
    hide TargetAt;
    hide PicksOf;
    NothingInHand(count, start, s);
    hide Accounted;
    PicksAreHits(start, s, i, count);
    HitsBalanced(start, s.next - start, i, count);
  }

  lemma NothingInHand(count: nat, start: nat, s: State)
    requires Accounted(count, start, s) && forall t | t in s.threads :: !s.threads[t].Checking?
    ensures start <= s.next && s.calls == s.next - start
    ensures s.returned == Range(start, s.next - start)
  {
    assert forall p | start <= p < s.next :: p in s.returned;
    assert s.returned == Range(start, s.next - start);
  }

  lemma PicksAreHits(start: nat, s: State, i: nat, count: nat)
    requires count > 0 && start <= s.next && s.returned == Range(start, s.next - start)
    requires s.next <= USIZE || USIZE % count == 0
    ensures |PicksOf(s, i, count)| == Hits(start, s.next - start, i, count)
  {
    hide TargetAt;
    var hits := HitSet(start, s.next - start, i, count);
    forall p: nat | p in s.returned ensures TargetAt(p, count) == i <==> p in hits {
      TargetAtSeamless(start, s.next - start, p, count);
    }
    assert PicksOf(s, i, count) == hits;
  }

  // ---------- Calls that are overtaken ----------

  /** What every step keeps: exactly the positions taken have takers, and the number of targets is fixed. */
  ghost predicate Shaped(count: nat, start: nat, s: State) {
    count > 0 && |s.healthy| == count && start <= s.next && forall q :: q in s.takers <==> start <= q < s.next
  }

  lemma {:induction false} RunIsShaped(start: nat, states: seq<State>, turns: seq<Turn>, n: nat)
    requires Run(start, states, turns) && n <= |turns|
    ensures Shaped(|states[0].healthy|, start, states[n])
  {
    if n > 0 {
      RunIsShaped(start, states, turns, n - 1);
    }
  }

  /** A call of one thread, from the step that begins it to the step that returns. */
  ghost predicate CallSpans(states: seq<State>, turns: seq<Turn>, m: nat, n: nat)
    requires |states| == |turns| + 1
    requires forall i | 0 <= i < |turns| ::
               states[i].healthy != [] && Enabled(states[i], turns[i].thread, turns[i].action)
  {
    && m < n < |turns| && turns[m] == Turn(turns[n].thread, Call)
    && Returns(states[n], turns[n].thread, turns[n].action).Some?
    && forall k | m < k < n :: turns[k] != Turn(turns[n].thread, Call)
  }

  /** The positions thread `t` has taken from `from` on. */
  function Mine(s: State, from: nat, t: nat): set<nat> {
    set q | q in s.takers && from <= q && s.takers[q] == t
  }

  /** A call under way has taken one position for each try, and none so far led to target `i`. */
  ghost predicate Searching(s: State, from: nat, t: nat, i: nat)
    requires s.healthy != []
  {
    match PhaseOf(s, t)
    case Idle => true
    case Taking(tries) =>
      && |Mine(s, from, t)| == tries
      && forall q | q in Mine(s, from, t) :: TargetAt(q, |s.healthy|) != i
    case Checking(tries, p) =>
      && p in Mine(s, from, t) && |Mine(s, from, t)| == tries + 1
      && forall q | q in Mine(s, from, t) && q != p :: TargetAt(q, |s.healthy|) != i
  }

  lemma MineStep(count: nat, start: nat, s: State, from: nat, t: nat, u: nat, a: Action)
    requires Shaped(count, start, s) && from <= s.next && Enabled(s, u, a)
    ensures Shaped(count, start, Apply(s, u, a))
    ensures Mine(Apply(s, u, a), from, t) == Mine(s, from, t) + if Turn(u, a) == Turn(t, FetchAdd) then {s.next} else {}
    ensures s.next !in Mine(s, from, t)
  {
    hide TargetAt;
  }

  lemma SearchStep(count: nat, start: nat, s: State, from: nat, t: nat, i: nat, u: nat, a: Action)
    requires Shaped(count, start, s) && from <= s.next && Enabled(s, u, a) && Turn(u, a) != Turn(t, Call)
    requires Searching(s, from, t, i) && i < count && s.healthy[i]
    ensures Shaped(count, start, Apply(s, u, a)) && Searching(Apply(s, u, a), from, t, i)
  {
    hide TargetAt;
    MineStep(count, start, s, from, t, u, a);
    hide Mine;
  }

  lemma {:induction false} CallSearches(start: nat, states: seq<State>, turns: seq<Turn>, m: nat, n: nat, k: nat, i: nat)
    requires Run(start, states, turns) && CallSpans(states, turns, m, n) && m < k <= n
    requires forall k | m <= k <= n :: i < |states[k].healthy| && states[k].healthy[i]
    ensures Shaped(|states[0].healthy|, start, states[k]) && states[m].next <= states[k].next
    ensures Searching(states[k], states[m].next, turns[n].thread, i)
    decreases k
  {
    hide Searching;
    hide TargetAt;
    var t, from := turns[n].thread, states[m].next;
    if k == m + 1 {
      RunIsShaped(start, states, turns, k);
      FirstSearch(|states[0].healthy|, start, states[k], from, t, i);
    } else {
      CallSearches(start, states, turns, m, n, k - 1, i);
      SearchStep(|states[0].healthy|, start, states[k - 1], from, t, i, turns[k - 1].thread, turns[k - 1].action);
    }
  }

  lemma FirstSearch(count: nat, start: nat, s: State, from: nat, t: nat, i: nat)
    requires Shaped(count, start, s) && from == s.next && PhaseOf(s, t) == Taking(0)
    ensures Searching(s, from, t, i)
  {
    assert Mine(s, from, t) == {};
  }

  /** A set of positions reaches from its smallest one at least as far as it is large. */
  lemma {:induction false} SpreadOut(s: set<nat>, hi: nat) returns (f: nat)
    requires s != {} && forall q | q in s :: q < hi
    ensures f in s && f + |s| <= hi && forall q | q in s :: f <= q
    decreases s
  {
    var x :| x in s;
    var rest := s - {x};
    f := x;
    if rest != {} {
      var g := SpreadOut(rest, hi);
      if g < x {
        f := g;
      }
    }
    forall q | q in s ensures f <= q {
      if q != x {
        assert q in rest;
      }
    }
    SpreadOutAfter(s, f, hi);
  }

  lemma SpreadOutAfter(s: set<nat>, f: nat, hi: nat)
    requires f <= hi && forall q | q in s :: f <= q < hi
    ensures f + |s| <= hi
  {
    assert s <= Range(f, hi - f);
    SubsetSize(s, Range(f, hi - f));
  }

  predicate TakenBy(s: State, q: nat, t: nat) {
    q in s.takers && s.takers[q] == t
  }

  /**
   From position `from` to its last position `p` the call of `t`, whose first position was `f`, took
   no turn of target `i`; other callers did, and at least one came up between its first and its last.
   */
  ghost predicate OvertakenAt(s: State, from: nat, f: nat, p: nat, t: nat, i: nat)
    requires s.healthy != []
  {
    && from <= f < p && TakenBy(s, f, t) && TakenBy(s, p, t)
    && (forall q | from <= q <= p && TargetAt(q, |s.healthy|) == i :: q in s.takers && !TakenBy(s, q, t))
    && (f % USIZE + |s.healthy| <= USIZE || USIZE % |s.healthy| <= 1 ==>
          exists q :: f < q < p && TargetAt(q, |s.healthy|) == i)
  }

  lemma TakersOfCall(start: nat, states: seq<State>, turns: seq<Turn>, m: nat, n: nat)
    requires Run(start, states, turns) && m <= n <= |turns|
    ensures Shaped(|states[0].healthy|, start, states[m]) && Shaped(|states[0].healthy|, start, states[n])
  {
    RunIsShaped(start, states, turns, m);
    RunIsShaped(start, states, turns, n);
  }

  /**
   Who misses a healthy target was overtaken: in every run, with health changing as it may, a call
   that returns a target that is down at that moment, while target `i` was healthy from the call's
   beginning to its end, took none of the turns of `i` that came up meanwhile; other callers took
   them all, and at least one came up between its first position and its last.
   */
  lemma Overtaken(start: nat, states: seq<State>, turns: seq<Turn>, m: nat, n: nat, i: nat)
    requires Run(start, states, turns) && CallSpans(states, turns, m, n)
    requires forall k | m <= k <= n :: i < |states[k].healthy| && states[k].healthy[i]
    requires ReturnsDown(states[n], turns[n].thread, turns[n].action)
    ensures var t, a := turns[n].thread, turns[n].action;
            var after, p := Apply(states[n], t, a), Returns(states[n], t, a).value;
            exists f :: OvertakenAt(after, states[m].next, f, p, t, i)
  {
    hide TargetAt;
    var t, from, count := turns[n].thread, states[m].next, |states[0].healthy|;
    var s, s' := states[n], Apply(states[n], t, turns[n].action);
    var p := s.next;
    FallbackOnly(s, t, turns[n].action);
    assert s'.takers == s.takers[p := t] && s'.healthy == s.healthy;
    CallSearches(start, states, turns, m, n, n, i);
    TakersOfCall(start, states, turns, m, n);
    MineStep(count, start, s, from, t, t, turns[n].action);
    hide CallSpans;
    hide Run;
    var mine := Mine(s, from, t);
    assert |mine| >= count && mine != {};
    var f := SpreadOut(mine, p);
    forall q | from <= q <= p && TargetAt(q, count) == i ensures q in s'.takers && !TakenBy(s', q, t) {
      assert q < p ==> q !in mine;
    }
    if f % USIZE + count <= USIZE || USIZE % count <= 1 {
      var q := TurnComes(f, i, count);
      assert !TakenBy(s', q, t);
    }
    assert OvertakenAt(s', from, f, p, t, i);
  }

  /** A step that ends a call with a target that is down at that moment. */
  predicate ReturnsDown(s: State, t: nat, a: Action)
    requires s.healthy != [] && Enabled(s, t, a)
  {
    Returns(s, t, a).Some? && !s.healthy[TargetAt(Returns(s, t, a).value, |s.healthy|)]
  }

  /** Only the fallback can. */
  lemma FallbackOnly(s: State, t: nat, a: Action)
    requires s.healthy != [] && Enabled(s, t, a) && ReturnsDown(s, t, a)
    ensures a == FetchAdd && PhaseOf(s, t).tries >= |s.healthy| && Returns(s, t, a) == Some(s.next)
    ensures Apply(s, t, a).takers == s.takers[s.next := t] && Apply(s, t, a).healthy == s.healthy
  {
    hide TargetAt;
  }

  // ---------- Undisturbed calls ----------

  /** A call that no other caller disturbs has taken the positions from `from` on, all of them unhealthy so far. */
  ghost predicate ScanningAlone(healthy: seq<bool>, s: State, from: nat, t: nat) {
    && healthy != [] && s.healthy == healthy
    && match PhaseOf(s, t)
       case Idle => true
       case Taking(tries) =>
         && s.next == from + tries && tries <= |healthy|
         && forall q | from <= q < s.next :: !healthy[TargetAt(q, |healthy|)]
       case Checking(tries, p) =>
         && s.next == from + tries + 1 && p == from + tries && tries < |healthy|
         && forall q | from <= q < p :: !healthy[TargetAt(q, |healthy|)]
  }

  lemma AloneStep(healthy: seq<bool>, s: State, from: nat, t: nat, u: nat, a: Action)
    requires ScanningAlone(healthy, s, from, t) && Enabled(s, u, a) && Turn(u, a) != Turn(t, Call)
    requires (a == FetchAdd ==> u == t) && Apply(s, u, a).healthy == healthy
    ensures ScanningAlone(healthy, Apply(s, u, a), from, t)
  {
    hide TargetAt;
  }

  lemma {:induction false} CallScansAlone(healthy: seq<bool>, start: nat, states: seq<State>, turns: seq<Turn>, m: nat, n: nat, k: nat)
    requires SteadyRun(healthy, start, states, turns) && CallSpans(states, turns, m, n) && m < k <= n
    requires forall k | m < k < n && turns[k].action == FetchAdd :: turns[k].thread == turns[n].thread
    ensures ScanningAlone(healthy, states[k], states[m].next, turns[n].thread)
    decreases k
  {
    assert states[k].healthy == healthy;
    if k > m + 1 {
      hide ScanningAlone;
      CallScansAlone(healthy, start, states, turns, m, n, k - 1);
      AloneStep(healthy, states[k - 1], states[m].next, turns[n].thread, turns[k - 1].thread, turns[k - 1].action);
    }
  }

  /**
   The sequential results are about these calls: one during which no other caller moves the counter
   returns the position that `Position` computes from the counter it found.
   */
  lemma UndisturbedCall(healthy: seq<bool>, start: nat, states: seq<State>, turns: seq<Turn>, m: nat, n: nat)
    requires SteadyRun(healthy, start, states, turns) && CallSpans(states, turns, m, n)
    requires forall k | m < k < n && turns[k].action == FetchAdd :: turns[k].thread == turns[n].thread
    ensures healthy != []
    ensures Returns(states[n], turns[n].thread, turns[n].action) == Some(Position(healthy, states[m].next))
  {
    hide TargetAt;
    CallScansAlone(healthy, start, states, turns, m, n, n);
    ScanFacts(healthy, states[m].next, |healthy|);
  }

  // ---------- Missing a healthy target ----------

  /**
   Under interleaving a call may return an unhealthy target although others are healthy throughout:
   for every health of the targets with one of them down, and every counter, other callers can take
   the healthy targets' turns.
   */
  lemma HealthyCanBeMissed(healthy: seq<bool>, start: nat, u: nat)
    requires u < |healthy| < USIZE && !healthy[u]
    ensures exists states: seq<State>, turns: seq<Turn>, p: nat ::
              && SteadyRun(healthy, start, states, turns)
              && p in states[|turns|].returned && !healthy[TargetAt(p, |healthy|)]
  {
    hide TargetAt;
    var states, turns := [Start(start, healthy)], [];
    assert SteadyRun(healthy, start, states, turns);
    hide SteadyRun;
    states, turns := Extend(healthy, start, states, turns, 0, Call);
    states, turns := FailEveryTry(healthy, start, states, turns, u);
    var p := states[|turns|].next;
    states, turns := Extend(healthy, start, states, turns, 0, FetchAdd);
    assert p in states[|turns|].returned;
  }

  /** Thread 0 has some tries left; thread 1 sees to it that all of them fail. */
  lemma {:induction false} FailEveryTry(healthy: seq<bool>, start: nat, states: seq<State>, turns: seq<Turn>, u: nat)
    returns (states': seq<State>, turns': seq<Turn>)
    requires u < |healthy| < USIZE && !healthy[u] && SteadyRun(healthy, start, states, turns)
    requires var s := states[|turns|]; PhaseOf(s, 0).Taking? && PhaseOf(s, 0).tries <= |healthy| && PhaseOf(s, 1).Idle?
    ensures SteadyRun(healthy, start, states', turns')
    ensures var s := states'[|turns'|];
            && PhaseOf(s, 0) == Taking(|healthy|) && !healthy[TargetAt(s.next, |healthy|)] && s.healthy == healthy
    decreases |healthy| - PhaseOf(states[|turns|], 0).tries
  {
    hide TargetAt;
    var s := states[|turns|];
    hide SteadyRun;
    var q := DownTurn(|healthy|, s.next, u);
    states', turns' := SkipTo(healthy, start, states, turns, q);
    SteadyHealth(healthy, start, states', turns');
    if PhaseOf(s, 0).tries < |healthy| {
      states', turns' := FailedTry(healthy, start, states', turns', 0);
      states', turns' := FailEveryTry(healthy, start, states', turns', u);
    }
  }

  lemma SteadyHealth(healthy: seq<bool>, start: nat, states: seq<State>, turns: seq<Turn>)
    requires SteadyRun(healthy, start, states, turns)
    ensures |states| == |turns| + 1 && states[|turns|].healthy == healthy
  {
  }

  /** Some later turn of any one target. */
  lemma DownTurn(count: nat, n: nat, u: nat) returns (q: nat)
    requires u < count < USIZE
    ensures q >= n && TargetAt(q, count) == u
  {
    var w := n / USIZE + 1;
    assert n == USIZE * (n / USIZE) + n % USIZE && USIZE * w == USIZE * (n / USIZE) + USIZE;
    q := USIZE * w + u;
    ModOf(q, USIZE, w, u);
    ModOf(u, count, 0, u);
  }

  /** Thread 1 calls until the next position leads to a target that is down. */
  lemma {:induction false} SkipTo(healthy: seq<bool>, start: nat, states: seq<State>, turns: seq<Turn>, q: nat)
    returns (states': seq<State>, turns': seq<Turn>)
    requires healthy != [] && SteadyRun(healthy, start, states, turns)
    requires var s := states[|turns|]; s.next <= q && !healthy[TargetAt(q, |healthy|)] && PhaseOf(s, 1).Idle?
    ensures SteadyRun(healthy, start, states', turns')
    ensures var s, s' := states[|turns|], states'[|turns'|];
            && !healthy[TargetAt(s'.next, |healthy|)] && PhaseOf(s', 0) == PhaseOf(s, 0) && PhaseOf(s', 1).Idle?
    decreases q - states[|turns|].next
  {
    hide TargetAt;
    var s := states[|turns|];
    hide SteadyRun;
    states', turns' := states, turns;
    if healthy[TargetAt(s.next, |healthy|)] {
      states', turns' := WholeCall(healthy, start, states, turns, 1);
      states', turns' := SkipTo(healthy, start, states', turns', q);
    }
  }

  /** Two steps of a caller whose turn falls on an unhealthy target. */
  lemma FailedTry(healthy: seq<bool>, start: nat, states: seq<State>, turns: seq<Turn>, t: nat)
    returns (states': seq<State>, turns': seq<Turn>)
    requires healthy != [] && SteadyRun(healthy, start, states, turns)
    requires var s := states[|turns|];
             && PhaseOf(s, t).Taking? && PhaseOf(s, t).tries < |healthy| && !healthy[TargetAt(s.next, |healthy|)]
    ensures SteadyRun(healthy, start, states', turns')
    ensures var s := states[|turns|];
            states'[|turns'|]
              == s.(next := s.next + 1, threads := s.threads[t := Taking(PhaseOf(s, t).tries + 1)], takers := s.takers[s.next := t])
  {
    hide TargetAt;
    ghost var s := states[|turns|];
    hide SteadyRun;
    SteadyHealth(healthy, start, states, turns);
    states', turns' := Extend(healthy, start, states, turns, t, FetchAdd);
    states', turns' := Extend(healthy, start, states', turns', t, Check);
    assert s.threads[t := Checking(s.threads[t].tries, s.next)][t := Taking(s.threads[t].tries + 1)]
        == s.threads[t := Taking(s.threads[t].tries + 1)];
  }

  /** Three steps of an idle caller whose turn falls on a healthy target. */
  lemma WholeCall(healthy: seq<bool>, start: nat, states: seq<State>, turns: seq<Turn>, t: nat)
    returns (states': seq<State>, turns': seq<Turn>)
    requires healthy != [] && SteadyRun(healthy, start, states, turns)
    requires var s := states[|turns|]; PhaseOf(s, t).Idle? && healthy[TargetAt(s.next, |healthy|)]
    ensures SteadyRun(healthy, start, states', turns')
    ensures var s := states[|turns|];
            states'[|turns'|]
              == State(s.next + 1, healthy, s.threads[t := Idle], s.returned + {s.next}, s.calls + 1, s.takers[s.next := t])
  {
    hide TargetAt;
    ghost var s := states[|turns|];
    hide SteadyRun;
    SteadyHealth(healthy, start, states, turns);
    states', turns' := Extend(healthy, start, states, turns, t, Call);
    states', turns' := Extend(healthy, start, states', turns', t, FetchAdd);
    states', turns' := Extend(healthy, start, states', turns', t, Check);
    assert s.threads[t := Taking(0)][t := Checking(0, s.next)][t := Idle] == s.threads[t := Idle];
  }

  /** Any enabled step of a caller makes a run longer. */
  lemma Extend(healthy: seq<bool>, start: nat, states: seq<State>, turns: seq<Turn>, t: nat, a: Action)
    returns (states': seq<State>, turns': seq<Turn>)
    requires healthy != [] && SteadyRun(healthy, start, states, turns)
    requires Enabled(states[|turns|], t, a) && !a.SetHealth?
    ensures states[|turns|].healthy == healthy
    ensures SteadyRun(healthy, start, states', turns')
    ensures states'[|turns'|] == Apply(states[|turns|], t, a)
  {
    states', turns' := states + [Apply(states[|turns|], t, a)], turns + [Turn(t, a)];
  }
}
