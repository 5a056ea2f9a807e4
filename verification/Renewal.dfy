/** The background loop that renews the certificate before it expires. */
module Renewal {
  import opened Base

  const I64_MAX: int := 0x7FFF_FFFF_FFFF_FFFF
  const I64_MIN: int := -0x8000_0000_0000_0000
  const SECONDS_PER_DAY: int := 86_400

  function Saturate(n: int): int {
    if n > I64_MAX then I64_MAX else if n < I64_MIN then I64_MIN else n
  }

  /** The renewal window in seconds, from a number of days of 64 bits. */
  function Window(renewBeforeDays: u64): int {
    Saturate((if renewBeforeDays > I64_MAX then I64_MAX else renewBeforeDays) * SECONDS_PER_DAY)
  }

  /** `notAfter` of the certificate on disk; nothing if it is missing or cannot be parsed. */
  predicate NeedsRenewal(notAfter: Option<int>, now: int, window: int) {
    notAfter.Some? ==> Saturate(notAfter.value - now) < window
  }

  /** Saturation never changes the decision. */
  lemma SaturationIsHarmless(notAfter: int, now: int, window: int)
    requires I64_MIN < window <= I64_MAX
    ensures NeedsRenewal(Some(notAfter), now, window) <==> notAfter - now < window
  {
  }

  lemma WindowInRange(renewBeforeDays: u64)
    ensures 0 <= Window(renewBeforeDays) <= I64_MAX
    ensures Window(renewBeforeDays) == if renewBeforeDays * 86_400 <= I64_MAX then renewBeforeDays * 86_400 else I64_MAX
    ensures renewBeforeDays >= 1 ==> Window(renewBeforeDays) >= SECONDS_PER_DAY
  {
  }

  /**
   How an order ends. Certificate and key are written one after the other, so an order can fail after
   it has replaced the certificate; and writing a file empties it first, so an order whose write of the
   certificate fails leaves one that cannot be parsed.
   */
  datatype Order = Issued(notAfter: int) | IssuedWithoutKey(notAfter: int) | Torn | Failed

  /** One turn of the loop: the time since the last check, and how an order would end now. */
  datatype Round = Round(gap: nat, order: Order)

  datatype State = State(now: int, notAfter: Option<int>)

  function Ordered(notAfter: Option<int>, order: Order): Option<int> {
    match order
    case Issued(n) => Some(n)
    case IssuedWithoutKey(n) => Some(n)
    case Torn => None
    case Failed => notAfter
  }

  function Turn(window: int, s: State, r: Round): State {
    var now := s.now + r.gap;
    State(now, if NeedsRenewal(s.notAfter, now, window) then Ordered(s.notAfter, r.order) else s.notAfter)
  }

  function After(window: int, start: State, rounds: seq<Round>): State {
    if rounds == [] then start
    else Turn(window, After(window, start, rounds[..|rounds| - 1]), rounds[|rounds| - 1])
  }

  /** How many orders in a row have failed, up to now. */
  function Failures(window: int, start: State, rounds: seq<Round>): nat {
    if rounds == [] then 0
    else
      var before, r := rounds[..|rounds| - 1], rounds[|rounds| - 1];
      var s := After(window, start, before);
      if !NeedsRenewal(s.notAfter, s.now + r.gap, window) || r.order.Issued? then 0
      else Failures(window, start, before) + 1
  }

  class CertificateFile {
    var now: int
    var notAfter: Option<int>

    ghost function Contents(): State
      reads this
    {
      State(now, notAfter)
    }

    /** The loop for as many turns as are given; it would go on for ever. */
    method RenewalLoop(window: int, rounds: seq<Round>)
      modifies this
      ensures Contents() == After(window, old(Contents()), rounds)
    {
      for i := 0 to |rounds|
        invariant Contents() == After(window, old(Contents()), rounds[..i])
      {
        assert rounds[..i + 1][..i] == rounds[..i];
        now := now + rounds[i].gap;
        var due := NeedsRenewal(notAfter, now, window);
        if due {
          notAfter := Ordered(notAfter, rounds[i].order);
        }
      }
      assert rounds[..|rounds|] == rounds;
    }
  }

  // ---------- No lapse ----------

  predicate Writes(o: Order) {
    o.Issued? || o.IssuedWithoutKey?
  }

  /**
   Checks at most `gap` apart, new certificates that last the window, and at most `f` failures in a row,
   of which some may tear the certificate only if `torn`.
   */
  ghost predicate Tame(window: int, gap: nat, f: nat, torn: bool, start: State, rounds: seq<Round>) {
    && (forall i | 0 <= i < |rounds| :: rounds[i].gap <= gap && (rounds[i].order.Torn? ==> torn))
    && (forall i | 0 <= i < |rounds| && Writes(rounds[i].order) ::
          rounds[i].order.notAfter - After(window, start, rounds[..i + 1]).now >= window)
    && (forall i | 0 <= i <= |rounds| :: Failures(window, start, rounds[..i]) <= f)
  }

  predicate Covered(window: int, s: State) {
    s.notAfter.Some? && s.notAfter.value - s.now >= window
  }

  /** `k * gap`, added up. */
  function Spent(k: nat, gap: nat): nat {
    if k == 0 then 0 else Spent(k - 1, gap) + gap
  }

  lemma {:induction false} SpentIsProduct(k: nat, gap: nat)
    ensures Spent(k, gap) == k * gap
  {
    if k > 0 {
      SpentIsProduct(k - 1, gap);
      assert k * gap == (k - 1) * gap + gap;
    }
  }

  lemma {:induction false} SpentGrows(j: nat, k: nat, gap: nat)
    requires j <= k
    ensures Spent(j, gap) <= Spent(k, gap)
  {
    if j < k {
      SpentGrows(j, k - 1, gap);
    }
  }

  /** Each failed order in a row costs at most one gap of remaining life. */
  lemma {:induction false} RemainingLife(window: int, gap: nat, f: nat, torn: bool, start: State, rounds: seq<Round>, n: nat)
    requires I64_MIN < window <= I64_MAX && Covered(window, start) && n <= |rounds|
    requires Tame(window, gap, f, torn, start, rounds) && (torn ==> f == 0)
    ensures var s := After(window, start, rounds[..n]);
            && s.notAfter.Some?
            && s.notAfter.value - s.now >= window - Spent(Failures(window, start, rounds[..n]), gap)
    decreases n
  {
    if n > 0 {
      var before, r := rounds[..n - 1], rounds[n - 1];
      RemainingLife(window, gap, f, torn, start, rounds, n - 1);
      assert rounds[..n][..n - 1] == before;
      var s := After(window, start, before);
      SaturationIsHarmless(s.notAfter.value, s.now + r.gap, window);
      assert Failures(window, start, rounds[..n - 1 + 1]) <= f;
      hide NeedsRenewal;
    }
  }

  /** At every moment up to the next check the certificate on disk has not expired. */
  predicate NotLapsed(s: State, gap: nat) {
    s.notAfter.Some? && s.now + gap <= s.notAfter.value
  }

  lemma FitsWindow(window: int, gap: nat, f: nat)
    requires (f + 1) * gap <= window
    ensures Spent(f, gap) + gap <= window
  {
    SpentIsProduct(f + 1, gap);
  }

  lemma NoLapse(window: int, gap: nat, f: nat, torn: bool, start: State, rounds: seq<Round>)
    requires I64_MIN < window <= I64_MAX && Covered(window, start) && Tame(window, gap, f, torn, start, rounds)
    requires Spent(f, gap) + gap <= window && (torn ==> f == 0)
    ensures NotLapsed(After(window, start, rounds), gap)
  {
    var n := |rounds|;
    RemainingLife(window, gap, f, torn, start, rounds, n);
    assert Failures(window, start, rounds[..n]) <= f;
    assert rounds[..n] == rounds;
    SpentGrows(Failures(window, start, rounds), f, gap);
    hide Spent;
    hide After;
    hide Failures;
    hide Tame;
  }

  function AllFail(gap: nat, k: nat): (rounds: seq<Round>)
    ensures |rounds| == k
  {
    if k == 0 then [] else AllFail(gap, k - 1) + [Round(gap, Failed)]
  }

  lemma OneMoreRound(window: int, start: State, before: seq<Round>, r: Round)
    ensures var s := After(window, start, before);
            && After(window, start, before + [r]) == Turn(window, s, r)
            && (NeedsRenewal(s.notAfter, s.now + r.gap, window) && !r.order.Issued? ==>
                  Failures(window, start, before + [r]) == Failures(window, start, before) + 1)
  {
    assert (before + [r])[..|before|] == before;
  }

  /** A failed order changes nothing but the time, and counts if it was due. */
  lemma OneMoreFailure(window: int, start: State, before: seq<Round>, gap: nat)
    ensures var s := After(window, start, before); var rounds := before + [Round(gap, Failed)];
            && After(window, start, rounds) == State(s.now + gap, s.notAfter)
            && (NeedsRenewal(s.notAfter, s.now + gap, window) ==>
                  Failures(window, start, rounds) == Failures(window, start, before) + 1)
  {
    hide After;
    hide Failures;
    hide NeedsRenewal;
    OneMoreRound(window, start, before, Round(gap, Failed));
  }

  lemma NoRounds(window: int, start: State)
    ensures After(window, start, []) == start && Failures(window, start, []) == 0
  {
  }

  lemma {:induction false} AllFailRun(window: int, gap: nat, k: nat)
    requires 1 <= window <= I64_MAX && gap >= 1
    ensures After(window, State(0, Some(window)), AllFail(gap, k)) == State(Spent(k, gap), Some(window))
    ensures Failures(window, State(0, Some(window)), AllFail(gap, k)) == k
  {
    hide After;
    hide Failures;
    hide NeedsRenewal;
    var start := State(0, Some(window));
    if k == 0 {
      NoRounds(window, start);
    } else {
      AllFailRun(window, gap, k - 1);
      OneMoreFailure(window, start, AllFail(gap, k - 1), gap);
      SaturationIsHarmless(window, Spent(k, gap), window);
    }
  }

  lemma {:induction false} AllFailPrefix(gap: nat, k: nat, i: nat)
    requires i <= k
    ensures AllFail(gap, k)[..i] == AllFail(gap, i)
    ensures i < k ==> AllFail(gap, k)[i] == Round(gap, Failed)
  {
    if i < k {
      AllFailPrefix(gap, k - 1, i);
      assert AllFail(gap, k)[..i] == AllFail(gap, k - 1)[..i];
    }
  }

  lemma LapseIsPossible(window: int, gap: nat, f: nat)
    requires 1 <= window <= I64_MAX && gap >= 1 && (f + 1) * gap > window
    ensures var start, rounds := State(0, Some(window)), AllFail(gap, f);
            Covered(window, start) && Tame(window, gap, f, false, start, rounds)
            && !NotLapsed(After(window, start, rounds), gap)
  {
    var start, rounds := State(0, Some(window)), AllFail(gap, f);
    hide After;
    hide Failures;
    hide AllFail;
    forall i | 0 <= i <= f
      ensures Failures(window, start, rounds[..i]) <= f
      ensures i < f ==> rounds[i] == Round(gap, Failed)
    {
      AllFailPrefix(gap, f, i);
      AllFailRun(window, gap, i);
    }
    AllFailRun(window, gap, f);
    SpentIsProduct(f + 1, gap);
  }

  /** One order that tears the certificate is a lapse at once, whatever the window. */
  lemma TornIsALapse(window: int, gap: nat, f: nat)
    requires 1 <= window <= I64_MAX && gap >= 1 && f >= 1
    ensures var start, rounds := State(0, Some(window)), [Round(1, Torn)];
            Covered(window, start) && Tame(window, gap, f, true, start, rounds)
            && !NotLapsed(After(window, start, rounds), gap)
  {
    var start, rounds := State(0, Some(window)), [Round(1, Torn)];
    SaturationIsHarmless(window, 1, window);
    OneMoreRound(window, start, [], Round(1, Torn));
    assert [] + rounds == rounds;
    forall i | 0 <= i <= 1 ensures Failures(window, start, rounds[..i]) <= f {
      assert rounds[..i] == if i == 0 then [] else rounds;
    }
  }

  /**
   No certificate lapse: starting with at least a window of life left, checks at most `gap` apart, and
   certificates issued for at least a window, `f` failed orders in a row can never let the certificate
   expire - exactly when `f + 1` gaps fit into the window and no failed order may tear the file.
   */
  lemma NoLapseExactly(window: int, gap: nat, f: nat, torn: bool)
    requires 1 <= window <= I64_MAX && gap >= 1
    ensures (forall start, rounds :: Covered(window, start) && Tame(window, gap, f, torn, start, rounds)
               ==> NotLapsed(After(window, start, rounds), gap))
       <==> (f + 1) * gap <= window && (torn ==> f == 0)
  {
    if (f + 1) * gap <= window && (torn ==> f == 0) {
      FitsWindow(window, gap, f);
      forall start, rounds | Covered(window, start) && Tame(window, gap, f, torn, start, rounds)
        ensures NotLapsed(After(window, start, rounds), gap)
      {
        NoLapse(window, gap, f, torn, start, rounds);
      }
    } else if torn && f >= 1 {
      TornIsALapse(window, gap, f);
    } else {
      LapseIsPossible(window, gap, f);
      TameIsTame(window, gap, f, torn, State(0, Some(window)), AllFail(gap, f));
    }
  }

  /** Allowing torn files allows no fewer runs. */
  lemma TameIsTame(window: int, gap: nat, f: nat, torn: bool, start: State, rounds: seq<Round>)
    requires Tame(window, gap, f, false, start, rounds)
    ensures Tame(window, gap, f, torn, start, rounds)
  {
  }

  // ---------- Recovery ----------

  /** The loop's decision and its effect, spelled out: a missing or unreadable certificate is always due. */
  lemma TurnExactly(window: int, start: State, rounds: seq<Round>, r: Round)
    requires I64_MIN < window <= I64_MAX
    ensures var s, s' := After(window, start, rounds), After(window, start, rounds + [r]);
            && s'.now == s.now + r.gap
            && if s.notAfter.Some? && s.notAfter.value - s'.now >= window then s'.notAfter == s.notAfter
               else match r.order
                    case Issued(n) => s'.notAfter == Some(n)
                    case IssuedWithoutKey(n) => s'.notAfter == Some(n)
                    case Torn => s'.notAfter == None
                    case Failed => s'.notAfter == s.notAfter
  {
    var s := After(window, start, rounds);
    OneMoreRound(window, start, rounds, r);
    if s.notAfter.Some? {
      SaturationIsHarmless(s.notAfter.value, s.now + r.gap, window);
    }
  }

  /**
   A missing certificate, as a failed write leaves it, stays missing exactly as long as no order writes
   one: the first that does ends the lapse.
   */
  lemma {:induction false} LapseEnds(window: int, start: State, before: seq<Round>, barren: seq<Round>, r: Round)
    requires I64_MIN < window <= I64_MAX && After(window, start, before).notAfter == None
    requires (forall b | b in barren :: !Writes(b.order)) && Writes(r.order)
    ensures After(window, start, before + barren).notAfter == None
    ensures After(window, start, before + barren + [r]).notAfter == Some(r.order.notAfter)
    decreases |barren|
  {
    hide After;
    if barren == [] {
      assert before + barren == before;
    } else {
      var n := |barren| - 1;
      assert before + barren == before + barren[..n] + [barren[n]];
      LapseEnds(window, start, before, barren[..n], r);
      TurnExactly(window, start, before + barren[..n], barren[n]);
    }
    TurnExactly(window, start, before + barren, r);
  }

  /** While there is no certificate every check is due, so each order but a complete one counts as a failure. */
  lemma {:induction false} MissingCounts(window: int, start: State, before: seq<Round>, barren: seq<Round>)
    requires I64_MIN < window <= I64_MAX && After(window, start, before).notAfter == None
    requires forall b | b in barren :: !Writes(b.order)
    ensures After(window, start, before + barren).notAfter == None
    ensures Failures(window, start, before + barren) == Failures(window, start, before) + |barren|
    decreases |barren|
  {
    hide After;
    hide Failures;
    if barren == [] {
      assert before + barren == before;
    } else {
      var n := |barren| - 1;
      assert before + barren == before + barren[..n] + [barren[n]];
      MissingCounts(window, start, before, barren[..n]);
      TurnExactly(window, start, before + barren[..n], barren[n]);
      OneMoreRound(window, start, before + barren[..n], barren[n]);
    }
  }

  /**
   How long a lapse lasts: if no more than `f` orders in a row fail, a certificate is back after at most
   `f + 1` checks, which take at most `f + 1` gaps.
   */
  lemma BackInTime(window: int, gap: nat, f: nat, start: State, before: seq<Round>, more: seq<Round>)
    requires I64_MIN < window <= I64_MAX && After(window, start, before).notAfter == None && |more| == f + 1
    requires forall i | 0 <= i <= |more| :: Failures(window, start, before + more[..i]) <= f
    requires forall i | 0 <= i < |more| :: more[i].gap <= gap
    ensures exists k :: 0 <= k <= f && Writes(more[k].order)
              && After(window, start, before + more[..k + 1]).notAfter == Some(more[k].order.notAfter)
              && After(window, start, before + more[..k + 1]).now - After(window, start, before).now <= (f + 1) * gap
  {
    hide After;
    hide Failures;
    assert more[..|more|] == more;
    if forall i | 0 <= i < |more| :: !Writes(more[i].order) {
      MissingCounts(window, start, before, more);
      assert false;
    }
    var k := FirstWrite(more);
    assert before + more[..k + 1] == before + more[..k] + [more[k]];
    LapseEnds(window, start, before, more[..k], more[k]);
    TimePasses(window, gap, start, before, more[..k + 1]);
    SpentGrows(k + 1, f + 1, gap);
    SpentIsProduct(f + 1, gap);
  }

  lemma {:induction false} FirstWrite(rounds: seq<Round>) returns (k: nat)
    requires exists i :: 0 <= i < |rounds| && Writes(rounds[i].order)
    ensures k < |rounds| && Writes(rounds[k].order)
    ensures forall b | b in rounds[..k] :: !Writes(b.order)
  {
    if Writes(rounds[0].order) {
      k := 0;
    } else {
      k := FirstWrite(rounds[1..]);
      k := k + 1;
      assert rounds[..k] == [rounds[0]] + rounds[1..][..k - 1];
    }
  }

  lemma {:induction false} TimePasses(window: int, gap: nat, start: State, before: seq<Round>, more: seq<Round>)
    requires I64_MIN < window <= I64_MAX && forall i | 0 <= i < |more| :: more[i].gap <= gap
    ensures After(window, start, before + more).now - After(window, start, before).now <= Spent(|more|, gap)
    decreases |more|
  {
    hide After;
    if more == [] {
      assert before + more == before;
    } else {
      var n := |more| - 1;
      assert before + more == before + more[..n] + [more[n]];
      TimePasses(window, gap, start, before, more[..n]);
      TurnExactly(window, start, before + more[..n], more[n]);
    }
  }
}
