/**
 The certificate cache: `get` reads the file's modification time, checks the cached value under a
 read lock, loads the file without a lock, and publishes under a write lock. Threads interleave
 between these steps with each other and with atomic rewrites of the file.
 */
module ReloadCache {
  import opened Base

  // ---------- The watched file ----------

  /** The file at one moment: absent, or some content with its modification time. */
  datatype Version<C> = Absent | Present(mtime: Time, content: C)

  /** Every version the file has had, oldest first; the last one is current. */
  type History<C> = seq<Version<C>>

  /** `load`: read and parse; fails when the file is absent or does not parse. */
  function Load<C, V>(parse: C -> Option<V>, v: Version<C>): Option<V> {
    if v.Absent? then None else parse(v.content)
  }

  /**
   The condition under which the cache works: when a modification time comes back, every version
   since it first came that could be loaded gave what the newest one gives.
   */
  ghost predicate Stable<C, V>(parse: C -> Option<V>, h: History<C>) {
    forall i, k, j | 0 <= i <= k < j < |h| && SameTime(h[i], h[j]) && Load(parse, h[k]).Some? ::
      Load(parse, h[j]) == Load(parse, h[k])
  }

  predicate SameTime<C>(v: Version<C>, w: Version<C>) {
    v.Present? && w.Present? && v.mtime == w.mtime
  }

  // ---------- The object ----------

  datatype Cached<V> = Cached(mtime: Time, value: V)

  function Hit<V>(cached: Option<Cached<V>>, mtime: Time): Option<V> {
    if cached.Some? && cached.value.mtime == mtime then Some(cached.value.value) else None
  }

  class ReloadCache<V> {
    var cached: Option<Cached<V>>

    constructor ()
      ensures cached == None
    {
      cached := None;
    }

    /** The check under the read lock. */
    method Check(mtime: Time) returns (r: Option<V>)
      ensures r == Hit(cached, mtime)
    {
      if cached.Some? && cached.value.mtime == mtime {
        return Some(cached.value.value);
      }
      return None;
    }

    /** The replacement under the write lock. */
    method Publish(mtime: Time, value: V)
      modifies this
      ensures cached == Some(Cached(mtime, value))
    {
      cached := Some(Cached(mtime, value));
    }

    /**
     One `get` with nothing in between: `stat` is the file's modification time, if it is there, and
     `load` what loading it would give. The cached value is reused exactly while its tag matches.
     */
    method Get(stat: Option<Time>, load: Option<V>) returns (r: Option<V>)
      modifies this
      ensures stat == None ==> r == None && cached == old(cached)
      ensures stat.Some? && Hit(old(cached), stat.value).Some? ==>
                r == Hit(old(cached), stat.value) && cached == old(cached)
      ensures stat.Some? && Hit(old(cached), stat.value).None? ==>
                r == load && cached == if load.Some? then Some(Cached(stat.value, load.value)) else old(cached)
    {
      if stat == None {
        return None;
      }
      r := Check(stat.value);
      if r.Some? {
        return r;
      }
      if load == None {
        return None;
      }
      Publish(stat.value, load.value);
      r := load;
    }
  }

  // ---------- Interleaved steps ----------

  datatype Phase<V> =
    | Idle
    | Called(since: nat)
    | Timed(since: nat, mtime: Time)
    | Missed(since: nat, mtime: Time)
    | Loaded(since: nat, mtime: Time, value: V)

  /** A completed call: the versions current while it ran are `since..upto`, both included. */
  datatype Answer<V> = Answer(since: nat, upto: nat, result: Option<V>)

  datatype State<C, V> = State(
    history: History<C>, cached: Option<Cached<V>>, threads: map<nat, Phase<V>>, answers: seq<Answer<V>>)

  datatype Action<C> =
    | Rewrite(version: Version<C>)
    | Call
    | Stat
    | Check
    | ReadFile
    | Publish

  function PhaseOf<C, V>(s: State<C, V>, t: nat): Phase<V> {
    if t in s.threads then s.threads[t] else Idle
  }

  predicate Enabled<C, V>(s: State<C, V>, t: nat, a: Action<C>) {
    match a
    case Rewrite(_) => true
    case Call => PhaseOf(s, t).Idle?
    case Stat => PhaseOf(s, t).Called?
    case Check => PhaseOf(s, t).Timed?
    case ReadFile => PhaseOf(s, t).Missed?
    case Publish => PhaseOf(s, t).Loaded?
  }

  function Goto<C, V>(s: State<C, V>, t: nat, ph: Phase<V>): State<C, V> {
    s.(threads := s.threads[t := ph])
  }

  function Finish<C, V>(s: State<C, V>, t: nat, result: Option<V>): State<C, V>
    requires !PhaseOf(s, t).Idle? && |s.history| > 0
  {
    Goto(s, t, Idle).(answers := s.answers + [Answer(PhaseOf(s, t).since, |s.history| - 1, result)])
  }

  function Apply<C, V>(parse: C -> Option<V>, s: State<C, V>, t: nat, a: Action<C>): State<C, V>
    requires Enabled(s, t, a) && |s.history| > 0
  {
    var now := s.history[|s.history| - 1];
    match a
    case Rewrite(version) => s.(history := s.history + [version])
    case Call => Goto(s, t, Called(|s.history| - 1))
    case Stat =>
      if now.Absent? then Finish(s, t, None) else Goto(s, t, Timed(s.threads[t].since, now.mtime))
    case Check =>
      var ph := s.threads[t];
      var hit := Hit(s.cached, ph.mtime);
      if hit.Some? then Finish(s, t, hit) else Goto(s, t, Missed(ph.since, ph.mtime))
    case ReadFile =>
      var ph := s.threads[t];
      var value := Load(parse, now);
      if value.Some? then Goto(s, t, Loaded(ph.since, ph.mtime, value.value)) else Finish(s, t, None)
    case Publish =>
      var ph := s.threads[t];
      Finish(s.(cached := Some(Cached(ph.mtime, ph.value))), t, Some(ph.value))
  }

  datatype Turn<C> = Turn(thread: nat, action: Action<C>)

  ghost predicate Run<C, V>(parse: C -> Option<V>, states: seq<State<C, V>>, turns: seq<Turn<C>>) {
    && |states| == |turns| + 1
    && |states[0].history| == 1 && states[0] == State(states[0].history, None, map[], [])
    && forall i | 0 <= i < |turns| ::
         && |states[i].history| > 0
         && Enabled(states[i], turns[i].thread, turns[i].action)
         && states[i + 1] == Apply(parse, states[i], turns[i].thread, turns[i].action)
  }

  // ---------- The invariant ----------

  predicate ParsedFrom<C, V(==)>(parse: C -> Option<V>, h: History<C>, k: nat, value: V) {
    k < |h| && Load(parse, h[k]) == Some(value)
  }

  /** The version with that modification time came at index `i`. */
  predicate Stamped<C>(h: History<C>, i: nat, mtime: Time) {
    i < |h| && h[i].Present? && h[i].mtime == mtime
  }

  /** A value is never tagged with the time of a version newer than the content it was parsed from. */
  ghost predicate TagOk<C, V>(parse: C -> Option<V>, h: History<C>, from: nat, mtime: Time, value: V) {
    exists i, k :: from <= i <= k && Stamped(h, i, mtime) && ParsedFrom(parse, h, k, value)
  }

  ghost predicate TimeOk<C>(h: History<C>, since: nat, mtime: Time) {
    exists i :: since <= i && Stamped(h, i, mtime)
  }

  ghost predicate PhaseOk<C, V>(parse: C -> Option<V>, h: History<C>, ph: Phase<V>) {
    match ph
    case Idle => true
    case Called(since) => since < |h|
    case Timed(since, mtime) => TimeOk(h, since, mtime)
    case Missed(since, mtime) => TimeOk(h, since, mtime)
    case Loaded(since, mtime, value) => TagOk(parse, h, since, mtime, value)
  }

  /** What a caller may rely on: the value was in the file, or a failure was, at some moment of the call. */
  ghost predicate AnswerOk<C, V>(parse: C -> Option<V>, h: History<C>, r: Answer<V>) {
    && r.upto < |h|
    && exists k :: r.since <= k <= r.upto && k < |h| && Load(parse, h[k]) == r.result
  }

  ghost predicate Inv<C, V>(parse: C -> Option<V>, s: State<C, V>) {
    && |s.history| > 0
    && (s.cached.Some? ==> TagOk(parse, s.history, 0, s.cached.value.mtime, s.cached.value.value))
    && (forall t | t in s.threads :: PhaseOk(parse, s.history, s.threads[t]))
    && (forall r | r in s.answers :: AnswerOk(parse, s.history, r))
  }

  lemma RewriteKeeps<C, V>(parse: C -> Option<V>, s: State<C, V>, version: Version<C>)
    requires Inv(parse, s)
    ensures Inv(parse, s.(history := s.history + [version]))
  {
    var h, h' := s.history, s.history + [version];
    assert forall i: nat | i < |h| :: h'[i] == h[i];
    if s.cached.Some? {
      TagOkGrows(parse, h, h', 0, s.cached.value.mtime, s.cached.value.value);
    }
    forall t | t in s.threads ensures PhaseOk(parse, h', s.threads[t]) {
      assert PhaseOk(parse, h, s.threads[t]);
      match s.threads[t] {
        case Idle =>
        case Called(since) =>
        case Timed(since, mtime) => TimeOkGrows(h, h', since, mtime);
        case Missed(since, mtime) => TimeOkGrows(h, h', since, mtime);
        case Loaded(since, mtime, value) => TagOkGrows(parse, h, h', since, mtime, value);
      }
    }
    forall r | r in s.answers ensures AnswerOk(parse, h', r) {
      assert AnswerOk(parse, h, r);
      var k :| r.since <= k <= r.upto && k < |h| && Load(parse, h[k]) == r.result;
      assert h'[k] == h[k];
    }
  }

  lemma TagOkGrows<C, V>(parse: C -> Option<V>, h: History<C>, h': History<C>, from: nat, mtime: Time, value: V)
    requires h <= h' && TagOk(parse, h, from, mtime, value)
    ensures TagOk(parse, h', from, mtime, value)
  {
    var i, k :| from <= i <= k && Stamped(h, i, mtime) && ParsedFrom(parse, h, k, value);
    assert Stamped(h', i, mtime) && ParsedFrom(parse, h', k, value);
  }

  lemma TimeOkGrows<C>(h: History<C>, h': History<C>, since: nat, mtime: Time)
    requires h <= h' && TimeOk(h, since, mtime)
    ensures TimeOk(h', since, mtime)
  {
    var i :| since <= i && Stamped(h, i, mtime);
    assert Stamped(h', i, mtime);
  }

  lemma FinishKeeps<C, V>(parse: C -> Option<V>, s: State<C, V>, t: nat, result: Option<V>, k: nat)
    requires Inv(parse, s) && !PhaseOf(s, t).Idle?
    requires PhaseOf(s, t).since <= k < |s.history| && Load(parse, s.history[k]) == result
    ensures Inv(parse, Finish(s, t, result))
  {
    hide TagOk;
    hide TimeOk;
    var r := Answer(PhaseOf(s, t).since, |s.history| - 1, result);
    assert AnswerOk(parse, s.history, r);
  }

  lemma GotoKeeps<C, V>(parse: C -> Option<V>, s: State<C, V>, t: nat, ph: Phase<V>)
    requires Inv(parse, s) && PhaseOk(parse, s.history, ph)
    ensures Inv(parse, Goto(s, t, ph))
  {
    hide PhaseOk;
    hide AnswerOk;
    hide TagOk;
  }

  /**
   A hit is safe. The tag matched the time read at index `i` of the call. Either the cached value was
   parsed during the call, or it was parsed between the version that gave the tag and version `i`,
   which has the same time and so, in a stable history, the same value.
   */
  lemma HitIsCurrent<C, V>(parse: C -> Option<V>, h: History<C>, since: nat, mtime: Time, value: V) returns (k: nat)
    requires Stable(parse, h) && TimeOk(h, since, mtime) && TagOk(parse, h, 0, mtime, value)
    ensures since <= k < |h| && Load(parse, h[k]) == Some(value)
  {
    var i :| since <= i && Stamped(h, i, mtime);
    var i', j :| 0 <= i' <= j && Stamped(h, i', mtime) && ParsedFrom(parse, h, j, value);
    k := j;
    if j < since {
      assert SameTime(h[i'], h[i]) && Load(parse, h[j]).Some?;
      k := i;
    }
  }

  lemma StepKeepsInv<C, V>(parse: C -> Option<V>, s: State<C, V>, t: nat, a: Action<C>)
    requires Inv(parse, s) && Enabled(s, t, a) && Stable(parse, s.history)
    ensures Inv(parse, Apply(parse, s, t, a))
  {
    hide TagOk;
    hide TimeOk;
    hide AnswerOk;
    var h, ph := s.history, PhaseOf(s, t);
    var last := |h| - 1;
    match a {
      case Rewrite(version) => RewriteKeeps(parse, s, version);
      case Call => GotoKeeps(parse, s, t, Called(last));
      case Stat =>
        if h[last].Absent? {
          FinishKeeps(parse, s, t, None, last);
        } else {
          StatIsTimeOk(h, ph.since);
          GotoKeeps(parse, s, t, Timed(ph.since, h[last].mtime));
        }
      case Check =>
        var hit := Hit(s.cached, ph.mtime);
        if hit.Some? {
          var k := HitIsCurrent(parse, h, ph.since, ph.mtime, hit.value);
          FinishKeeps(parse, s, t, hit, k);
        } else {
          GotoKeeps(parse, s, t, Missed(ph.since, ph.mtime));
        }
      case ReadFile =>
        var value := Load(parse, h[last]);
        SinceIsPast(h, ph.since, ph.mtime);
        if value.Some? {
          LoadIsTagOk(parse, h, ph.since, ph.mtime, value.value);
          GotoKeeps(parse, s, t, Loaded(ph.since, ph.mtime, value.value));
        } else {
          FinishKeeps(parse, s, t, None, last);
        }
      case Publish =>
        PublishKeeps(parse, s, t);
    }
  }

  lemma StatIsTimeOk<C>(h: History<C>, since: nat)
    requires since < |h| && h[|h| - 1].Present?
    ensures TimeOk(h, since, h[|h| - 1].mtime)
  {
    assert Stamped(h, |h| - 1, h[|h| - 1].mtime);
  }

  lemma SinceIsPast<C>(h: History<C>, since: nat, mtime: Time)
    requires TimeOk(h, since, mtime)
    ensures since < |h|
  {
  }

  lemma LoadIsTagOk<C, V>(parse: C -> Option<V>, h: History<C>, since: nat, mtime: Time, value: V)
    requires TimeOk(h, since, mtime) && Load(parse, h[|h| - 1]) == Some(value)
    ensures TagOk(parse, h, since, mtime, value)
  {
    var i :| since <= i && Stamped(h, i, mtime);
    assert ParsedFrom(parse, h, |h| - 1, value);
  }

  lemma PublishKeeps<C, V>(parse: C -> Option<V>, s: State<C, V>, t: nat)
    requires Inv(parse, s) && Enabled(s, t, Publish)
    ensures Inv(parse, Apply(parse, s, t, Publish))
  {
    hide TimeOk;
    hide AnswerOk;
    var ph := s.threads[t];
    assert PhaseOk(parse, s.history, ph);
    var i, k :| ph.since <= i <= k && Stamped(s.history, i, ph.mtime) && ParsedFrom(parse, s.history, k, ph.value);
    assert TagOk(parse, s.history, 0, ph.mtime, ph.value);
    var s' := s.(cached := Some(Cached(ph.mtime, ph.value)));
    FinishKeeps(parse, s', t, Some(ph.value), k);
  }

  lemma {:induction false} HistoryOnlyGrows<C, V>(parse: C -> Option<V>, states: seq<State<C, V>>, turns: seq<Turn<C>>, i: nat, j: nat)
    requires Run(parse, states, turns) && i <= j <= |turns|
    ensures states[i].history <= states[j].history
  {
    if i < j {
      HistoryOnlyGrows(parse, states, turns, i, j - 1);
    }
  }

  lemma StablePrefix<C, V>(parse: C -> Option<V>, h: History<C>, h': History<C>)
    requires h <= h' && Stable(parse, h')
    ensures Stable(parse, h)
  {
    hide Load;
    forall i, k, j | 0 <= i <= k < j < |h| && SameTime(h[i], h[j]) && Load(parse, h[k]).Some?
      ensures Load(parse, h[j]) == Load(parse, h[k])
    {
      assert h[i] == h'[i] && h[k] == h'[k] && h[j] == h'[j];
    }
  }

  lemma {:induction false} RunKeepsInv<C, V>(parse: C -> Option<V>, states: seq<State<C, V>>, turns: seq<Turn<C>>, n: nat)
    requires Run(parse, states, turns) && n <= |turns| && Stable(parse, states[n].history)
    ensures Inv(parse, states[n])
  {
    hide Inv;
    hide Apply;
    hide Enabled;
    if n == 0 {
      StartInv(parse, states[0]);
    } else {
      HistoryOnlyGrows(parse, states, turns, n - 1, n);
      StablePrefix(parse, states[n - 1].history, states[n].history);
      RunKeepsInv(parse, states, turns, n - 1);
      StepKeepsInv(parse, states[n - 1], turns[n - 1].thread, turns[n - 1].action);
    }
  }

  lemma StartInv<C, V>(parse: C -> Option<V>, s: State<C, V>)
    requires |s.history| == 1 && s == State(s.history, None, map[], [])
    ensures Inv(parse, s)
  {
  }

  // ---------- Main results ----------

  /**
   Linearizability: under every interleaving of callers and rewrites of a stable history, each call
   returns what loading the file would have given at some moment while it ran - even when a slow
   loader publishes an old tag last.
   */
  lemma GetIsLinearizable<C, V>(parse: C -> Option<V>, states: seq<State<C, V>>, turns: seq<Turn<C>>, n: nat, r: Answer<V>)
    requires Run(parse, states, turns) && n <= |turns| && Stable(parse, states[n].history)
    requires r in states[n].answers
    ensures exists k :: r.since <= k <= r.upto < |states[n].history| && Load(parse, states[n].history[k]) == r.result
  {
    RunKeepsInv(parse, states, turns, n);
    assert AnswerOk(parse, states[n].history, r);
  }

  /** Every run in which the file goes through these versions answers every call with a value current during it. */
  ghost predicate AlwaysLinearizable<C(!new), V(!new)>(parse: C -> Option<V>, h: History<C>) {
    forall states: seq<State<C, V>>, turns: seq<Turn<C>> | Run(parse, states, turns) && states[|turns|].history == h ::
      forall r | r in states[|turns|].answers :: AnswerOk(parse, h, r)
  }

  lemma InvAnswers<C, V>(parse: C -> Option<V>, s: State<C, V>, r: Answer<V>)
    requires Inv(parse, s) && r in s.answers
    ensures AnswerOk(parse, s.history, r)
  {
  }

  /** The exact condition: whatever versions a file goes through, all runs are linearizable if and only if they are stable. */
  lemma LinearizableExactly<C(!new), V(!new)>(parse: C -> Option<V>, h: History<C>)
    requires h != []
    ensures AlwaysLinearizable(parse, h) <==> Stable(parse, h)
  {
    hide Inv;
    hide Load;
    if Stable(parse, h) {
      forall states: seq<State<C, V>>, turns: seq<Turn<C>>, r
        | Run(parse, states, turns) && states[|turns|].history == h && r in states[|turns|].answers
        ensures AnswerOk(parse, h, r)
      {
        RunKeepsInv(parse, states, turns, |turns|);
        InvAnswers(parse, states[|turns|], r);
      }
    } else {
      var i, k, j :| 0 <= i <= k < j < |h| && SameTime(h[i], h[j]) && Load(parse, h[k]).Some?
                     && Load(parse, h[j]) != Load(parse, h[k]);
      var states, turns := StaleRun(parse, h, i, k, j);
      assert !AnswerOk(parse, h, Answer(j, j, Load(parse, h[k])));
    }
  }

  predicate NeverBack<C>(h: History<C>) {
    forall i, j | 0 <= i < j < |h| && h[i].Present? && h[j].Present? :: h[i].mtime <= h[j].mtime
  }

  /** For a clock that never goes back only the versions that share a time matter, pair by pair. */
  lemma StableIfNeverBack<C, V>(parse: C -> Option<V>, h: History<C>)
    requires NeverBack(h)
    ensures Stable(parse, h) <==>
            forall i, j | 0 <= i < j < |h| && SameTime(h[i], h[j]) && Load(parse, h[i]).Some? ::
              Load(parse, h[j]) == Load(parse, h[i])
  {
    forall i, k, j | 0 <= i <= k < j < |h| && SameTime(h[i], h[j]) && Load(parse, h[k]).Some?
      ensures SameTime(h[k], h[j])
    {
      assert h[k].Present? && h[i].mtime <= h[k].mtime <= h[j].mtime;
    }
  }

  function Stamp<C>(mtime: Time, contents: seq<C>): (h: History<C>)
    ensures |h| == |contents| && forall i | 0 <= i < |h| :: h[i] == Present(mtime, contents[i])
  {
    seq(|contents|, i requires 0 <= i < |contents| => Present(mtime, contents[i]))
  }

  /**
   One file, truncated and written piece by piece within one tick of a new time, stays stable so long
   as no part of the new content loads before the whole is there.
   */
  lemma TornRewriteIsStable<C, V>(parse: C -> Option<V>, h: History<C>, mtime: Time, torn: seq<C>, whole: C)
    requires Stable(parse, h)
    requires forall v | v in h && v.Present? :: v.mtime != mtime
    requires forall c | c in torn :: parse(c) == None
    ensures Stable(parse, h + Stamp(mtime, torn) + [Present(mtime, whole)])
  {
    var h' := h + Stamp(mtime, torn) + [Present(mtime, whole)];
    assert forall x | 0 <= x < |h| :: h'[x] == h[x] && h[x] in h;
    assert forall x | |h| <= x < |h'| :: h'[x].Present? && h'[x].mtime == mtime;
    forall x | |h| <= x < |h'| - 1 ensures Load(parse, h'[x]) == None {
      assert h'[x] == Present(mtime, torn[x - |h|]) && torn[x - |h|] in torn;
    }
  }

  /**
   But a value parsed from two files is not: the renewal writes the certificate first and the key
   after it, and only the certificate's time is watched. Once the new certificate has loaded with the
   old key, no run has to notice the new key.
   */
  lemma PairIsUnstable<A(!new), B(!new), V(!new)>(
    parse: ((A, B)) -> Option<V>, h: History<(A, B)>, mtime: Time, cert: A, oldKey: B, key: B)
    requires parse((cert, oldKey)).Some? && parse((cert, key)) != parse((cert, oldKey))
    ensures var h' := h + [Present(mtime, (cert, oldKey)), Present(mtime, (cert, key))];
            !Stable(parse, h') && !AlwaysLinearizable(parse, h')
  {
    var h' := h + [Present(mtime, (cert, oldKey)), Present(mtime, (cert, key))];
    var i, j := |h|, |h| + 1;
    assert SameTime(h'[i], h'[j]) && Load(parse, h'[i]).Some? && Load(parse, h'[j]) != Load(parse, h'[i]);
    LinearizableExactly(parse, h');
  }

  /**
   A run through any versions with `i <= k < j` of which `i` and `j` share a time: a slow call takes
   the time of `i` and loads `k`, and a call that starts and ends at `j` gets that value.
   */
  lemma StaleRun<C, V>(parse: C -> Option<V>, h: History<C>, i: nat, k: nat, j: nat)
    returns (states: seq<State<C, V>>, turns: seq<Turn<C>>)
    requires i <= k < j < |h| && SameTime(h[i], h[j]) && Load(parse, h[k]).Some?
    ensures Run(parse, states, turns) && states[|turns|].history == h
    ensures Answer(j, j, Load(parse, h[k])) in states[|turns|].answers
  {
    var value, mtime := Load(parse, h[k]).value, h[i].mtime;
    states, turns := [State(h[..1], None, map[], [])], [];
    assert Run(parse, states, turns);
    hide Run;
    states, turns := RewriteTo(parse, states, turns, h, 1, i + 1);
    states, turns := TimeAndMiss(parse, states, turns, 0);
    states, turns := RewriteTo(parse, states, turns, h, i + 1, k + 1);
    states, turns := LoadAndPublish(parse, states, turns, 0);
    assert states[|turns|].cached == Some(Cached(mtime, value));
    states, turns := RewriteTo(parse, states, turns, h, k + 1, j + 1);
    states, turns := WarmGet(parse, states, turns, 1);
    assert states[|turns|].answers[|states[|turns|].answers| - 1] == Answer(j, j, Some(value));
    states, turns := RewriteTo(parse, states, turns, h, j + 1, |h|);
    assert h[..|h|] == h;
  }

  /** The file goes through the next versions with no caller moving. */
  lemma {:induction false} RewriteTo<C, V>(
    parse: C -> Option<V>, states: seq<State<C, V>>, turns: seq<Turn<C>>, h: History<C>, m: nat, n: nat)
    returns (states': seq<State<C, V>>, turns': seq<Turn<C>>)
    requires 0 < m <= n <= |h| && Run(parse, states, turns) && states[|turns|].history == h[..m]
    ensures Run(parse, states', turns') && states'[|turns'|] == states[|turns|].(history := h[..n])
    decreases n - m
  {
    states', turns' := states, turns;
    if m < n {
      states', turns' := Extend(parse, states, turns, 0, Rewrite(h[m]));
      assert h[..m] + [h[m]] == h[..m + 1];
      states', turns' := RewriteTo(parse, states', turns', h, m + 1, n);
    }
  }

  /** A call reads the current version's time and finds nothing cached. */
  lemma TimeAndMiss<C, V>(parse: C -> Option<V>, states: seq<State<C, V>>, turns: seq<Turn<C>>, t: nat)
    returns (states': seq<State<C, V>>, turns': seq<Turn<C>>)
    requires Run(parse, states, turns)
    requires var s := states[|turns|];
             |s.history| > 0 && PhaseOf(s, t).Idle? && Last(s).Present? && s.cached == None
    ensures Run(parse, states', turns')
    ensures var s := states[|turns|];
            states'[|turns'|] == Goto(s, t, Missed(|s.history| - 1, Last(s).mtime))
  {
    ghost var s := states[|turns|];
    ghost var now, mtime := |s.history| - 1, Last(s).mtime;
    states', turns' := Extend(parse, states, turns, t, Call);
    states', turns' := Extend(parse, states', turns', t, Stat);
    assert states'[|turns'|] == Goto(s, t, Timed(now, mtime));
    states', turns' := Extend(parse, states', turns', t, Check);
    hide Run;
    assert s.threads[t := Timed(now, mtime)][t := Missed(now, mtime)] == s.threads[t := Missed(now, mtime)];
  }

  /** A call that has missed loads the current version and publishes it under the time it read before. */
  lemma LoadAndPublish<C, V>(parse: C -> Option<V>, states: seq<State<C, V>>, turns: seq<Turn<C>>, t: nat)
    returns (states': seq<State<C, V>>, turns': seq<Turn<C>>)
    requires Run(parse, states, turns)
    requires var s := states[|turns|];
             |s.history| > 0 && PhaseOf(s, t).Missed? && Load(parse, Last(s)).Some?
    ensures Run(parse, states', turns')
    ensures var s, ph, now := states[|turns|], PhaseOf(states[|turns|], t), |states[|turns|].history| - 1;
            states'[|turns'|] == s.(
              cached := Some(Cached(ph.mtime, Load(parse, Last(s)).value)),
              threads := s.threads[t := Idle],
              answers := s.answers + [Answer(ph.since, now, Load(parse, Last(s)))])
  {
    ghost var s, ph := states[|turns|], PhaseOf(states[|turns|], t);
    ghost var value := Load(parse, Last(s)).value;
    states', turns' := Extend(parse, states, turns, t, ReadFile);
    states', turns' := Extend(parse, states', turns', t, Publish);
    hide Run;
    assert s.threads[t := Loaded(ph.since, ph.mtime, value)][t := Idle] == s.threads[t := Idle];
  }

  /**
   The failing case at its smallest: if two rewrites share a modification time, a call that starts
   after the second one can return what only the first one contained.
   */
  lemma SharedTimeIsStale<C, V>(parse: C -> Option<V>, mtime: Time, a: C, b: C)
    requires parse(a).Some? && parse(b) != parse(a)
    ensures exists states: seq<State<C, V>>, turns: seq<Turn<C>>, r: Answer<V> ::
              && Run(parse, states, turns) && r in states[|turns|].answers
              && states[|turns|].history == [Present(mtime, a), Present(mtime, b)]
              && r.since == r.upto == 1 && r.result == parse(a)
  {
    var states, turns := StaleRun(parse, [Present(mtime, a), Present(mtime, b)], 0, 0, 1);
    assert Answer(1, 1, parse(a)) in states[|turns|].answers;
  }

  function Last<C, V>(s: State<C, V>): Version<C>
    requires |s.history| > 0
  {
    s.history[|s.history| - 1]
  }

  /** Uninterrupted, a call that misses loads the current version and publishes it, as `ReloadCache.Get` does. */
  lemma ColdGet<C, V>(parse: C -> Option<V>, states: seq<State<C, V>>, turns: seq<Turn<C>>, t: nat)
    returns (states': seq<State<C, V>>, turns': seq<Turn<C>>)
    requires Run(parse, states, turns)
    requires var s := states[|turns|];
             && |s.history| > 0 && PhaseOf(s, t).Idle?
             && Last(s).Present? && Hit(s.cached, Last(s).mtime).None? && Load(parse, Last(s)).Some?
    ensures Run(parse, states', turns')
    ensures var s, now := states[|turns|], |states[|turns|].history| - 1;
            states'[|turns'|] == s.(
              cached := Some(Cached(Last(s).mtime, Load(parse, Last(s)).value)),
              threads := s.threads[t := Idle],
              answers := s.answers + [Answer(now, now, Load(parse, Last(s)))])
  {
    ghost var s := states[|turns|];
    ghost var now, mtime, value := |s.history| - 1, Last(s).mtime, Load(parse, Last(s)).value;
    states', turns' := Extend(parse, states, turns, t, Call);
    states', turns' := Extend(parse, states', turns', t, Stat);
    assert states'[|turns'|] == Goto(s, t, Timed(now, mtime));
    states', turns' := Extend(parse, states', turns', t, Check);
    states', turns' := Extend(parse, states', turns', t, ReadFile);
    assert states'[|turns'|] == Goto(s, t, Loaded(now, mtime, value));
    states', turns' := Extend(parse, states', turns', t, Publish);
    hide Run;
    assert s.threads[t := Loaded(now, mtime, value)][t := Idle] == s.threads[t := Idle];
  }

  /** Uninterrupted, a call whose tag matches returns the cached value and changes nothing. */
  lemma WarmGet<C, V>(parse: C -> Option<V>, states: seq<State<C, V>>, turns: seq<Turn<C>>, t: nat)
    returns (states': seq<State<C, V>>, turns': seq<Turn<C>>)
    requires Run(parse, states, turns)
    requires var s := states[|turns|];
             && |s.history| > 0 && PhaseOf(s, t).Idle?
             && Last(s).Present? && Hit(s.cached, Last(s).mtime).Some?
    ensures Run(parse, states', turns')
    ensures var s, now := states[|turns|], |states[|turns|].history| - 1;
            states'[|turns'|] == s.(
              threads := s.threads[t := Idle],
              answers := s.answers + [Answer(now, now, Hit(s.cached, Last(s).mtime))])
  {
    ghost var s := states[|turns|];
    ghost var now, mtime := |s.history| - 1, Last(s).mtime;
    states', turns' := Extend(parse, states, turns, t, Call);
    states', turns' := Extend(parse, states', turns', t, Stat);
    assert states'[|turns'|] == Goto(s, t, Timed(now, mtime));
    states', turns' := Extend(parse, states', turns', t, Check);
    hide Run;
    assert s.threads[t := Timed(now, mtime)][t := Idle] == s.threads[t := Idle];
  }

  lemma Extend<C, V>(parse: C -> Option<V>, states: seq<State<C, V>>, turns: seq<Turn<C>>, t: nat, a: Action<C>)
    returns (states': seq<State<C, V>>, turns': seq<Turn<C>>)
    requires Run(parse, states, turns) && |states[|turns|].history| > 0 && Enabled(states[|turns|], t, a)
    ensures Run(parse, states', turns')
    ensures states'[|turns'|] == Apply(parse, states[|turns|], t, a)
  {
    states', turns' := states + [Apply(parse, states[|turns|], t, a)], turns + [Turn(t, a)];
  }
}
