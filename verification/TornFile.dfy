/**
 Two puts of one hash that write at once: one renames the temporary file while the other still writes to
 it. For a while the published file is part one response and part the other, and reads as a whole one.
 With `ProxyResults` this makes the condition exact: one writer for each hash, and no more.
 */
module TornFile {
  import opened Base
  import opened Text
  import opened Codec
  import opened Policy
  import opened CacheStore
  import opened ProxyMachine
  import opened ProxyResults
  import opened Reaching
  import LastPutWins

  /** A file up to its body. */
  function FileHead(key: string, v: Stored): seq<byte> {
    StrBytes(key) + LE(ExpirySeconds(v.expiry), 8) + LE(v.response.status, 2)
    + LE(|v.response.headers|, 4) + HeaderBytes(v.response.headers) + LE(|v.response.body|, 8)
  }

  lemma FileIsHeadAndBody(p: PutRecord)
    ensures FileOf(p) == FileHead(p.key, p.v) + p.v.response.body && FileHead(p.key, p.v) != []
  {
    hide StrBytes;
    hide HeaderBytes;
    hide LE;
    assert |LE(|p.v.response.body|, 8)| == 8;
  }

  /** Files with bodies of one length differ only in the body. */
  lemma SameHead(key: string, ttl: nat, headers: seq<Header>, a: seq<byte>, b: seq<byte>)
    requires |a| == |b|
    ensures FileHead(key, EarlyPut(key, ttl, headers, a).v) == FileHead(key, EarlyPut(key, ttl, headers, b).v)
  {
    hide StrBytes;
    hide HeaderBytes;
    hide LE;
  }

  /** Writing the beginning of one file over another leaves the first part of one body and the rest of the other. */
  lemma Overlaid(head: seq<byte>, a1: seq<byte>, a2: seq<byte>, b1: seq<byte>, b2: seq<byte>)
    requires |a1| == |b1|
    ensures WriteAt(head + (a1 + a2), 0, (head + (b1 + b2))[..|head| + |b1|]) == head + (b1 + a2)
  {
    assert (head + (b1 + b2))[..|head| + |b1|] == head + b1;
    assert (head + (a1 + a2))[|head| + |b1|..] == a2;
    assert (head + (a1 + a2))[..0] == [];
  }

  /** Both puts hold one inode; the first has published it and the second has written a part. */
  lemma ReachTorn(cfg: Config, key: string, ttl: nat, headers: seq<Header>, a1: seq<byte>, a2: seq<byte>, b1: seq<byte>, b2: seq<byte>)
    returns (s: Proxy)
    requires cfg.maxEntries >= 1 && CaptureTtl(200, headers) == Some(ttl)
    requires |a1| == |b1| && |a2| == |b2|
    requires Writable(EarlyPut(key, ttl, headers, a1 + a2)) && Writable(EarlyPut(key, ttl, headers, b1 + b2))
    ensures var name := EntryFile(cfg.hash(key));
            && Reachable(cfg, s) && s.memory == map[] && PhaseOf(s, 3).Idle?
            && s.puts == [EarlyPut(key, ttl, headers, a1 + a2), EarlyPut(key, ttl, headers, b1 + b2)]
            && name in s.dir && s.dir[name] == 1 && 1 in s.data
            && s.data[1].bytes == FileOf(EarlyPut(key, ttl, headers, b1 + a2))
  {
    hide Reachable;
    hide CaptureTtl;
    hide Captured;
    hide Fits;
    hide FileOf;
    hide FileHead;
    hide WriteAt;
    var a, b, torn := EarlyPut(key, ttl, headers, a1 + a2), EarlyPut(key, ttl, headers, b1 + b2), EarlyPut(key, ttl, headers, b1 + a2);
    var head, h := FileHead(key, a.v), cfg.hash(key);
    SameHead(key, ttl, headers, a1 + a2, b1 + b2);
    SameHead(key, ttl, headers, a1 + a2, b1 + a2);
    FileIsHeadAndBody(a);
    FileIsHeadAndBody(b);
    FileIsHeadAndBody(torn);
    TwoPutsBegun(cfg, key, ttl, headers, a1 + a2, b1 + b2);
    s := INIT.(threads := map[1 := PutEvicting(a, None), 2 := PutEvicting(b, None)], puts := [a, b]);
    OpenTemp(cfg, s, 2, b, 1);
    s := Opened(cfg, s, 2, b, 1);
    OpenTemp(cfg, s, 1, a, 1);
    s := Opened(cfg, s, 1, a, 1);
    WriteAndRename(cfg, s, 1, a, 1);
    s := OnDisk(cfg, s, 1, a, 1);
    Overlaid(head, a1, a2, b1, b2);
    WriteSome(cfg, s, 2, b, 1, |head| + |b1|, FileOf(torn));
    s := Goto(s, 2, if |head| + |b1| < |FileOf(b)| then PutWriting(b, None, 1, |head| + |b1|) else PutRenaming(b, None, 1)).(
      data := s.data[1 := File(0, FileOf(torn))]);
  }

  /** A third request reads that file, under the right key, as a whole entry with parts of both bodies. */
  lemma TornIsRead(cfg: Config, key: string, ttl: nat, headers: seq<Header>, a1: seq<byte>, a2: seq<byte>, b1: seq<byte>, b2: seq<byte>)
    returns (s: Proxy, seen: nat)
    requires cfg.maxEntries >= 1 && CaptureTtl(200, headers) == Some(ttl)
    requires |a1| == |b1| && |a2| == |b2|
    requires Writable(EarlyPut(key, ttl, headers, a1 + a2)) && Writable(EarlyPut(key, ttl, headers, b1 + b2))
    ensures Reachable(cfg, s) && s.memory == map[]
    ensures s.puts == [EarlyPut(key, ttl, headers, a1 + a2), EarlyPut(key, ttl, headers, b1 + b2)]
    ensures PhaseOf(s, 3) == Filling(Http12, key, 0, EarlyPut(key, ttl, headers, b1 + a2).v, seen)
  {
    hide Reachable;
    hide CaptureTtl;
    hide Captured;
    hide Encoding;
    var torn := EarlyPut(key, ttl, headers, b1 + a2);
    s := ReachTorn(cfg, key, ttl, headers, a1, a2, b1, b2);
    seen := |s.published|;
    assert Writable(torn);
    AfterReadOfEntry(key, 1, torn.v, seen);
    hide Fits;
    ReadWhole(cfg, s, 3, key, 1, FileOf(torn));
    hide FileOf;
    WholeSecondsKept(ttl);
    s := Goto(s, 3, Filling(Http12, key, 0, Stored(DiskExpiry(torn.v.expiry), torn.v.response), seen));
  }

  /** It is neither of the two responses. */
  lemma TornIsNeither(key: string, ttl: nat, headers: seq<Header>, a1: seq<byte>, a2: seq<byte>, b1: seq<byte>, b2: seq<byte>)
    requires |a1| == |b1| && |a2| == |b2| && a1 != b1 && a2 != b2
    ensures var torn := EarlyPut(key, ttl, headers, b1 + a2).v.response;
            && EarlyPut(key, ttl, headers, a1 + a2).v.response != torn
            && EarlyPut(key, ttl, headers, b1 + b2).v.response != torn
  {
    hide Captured;
    assert (a1 + a2)[..|a1|] == a1 && (b1 + a2)[..|a1|] == b1;
    assert (b1 + b2)[|b1|..] == b2 && (b1 + a2)[|b1|..] == a2;
  }

  /**
   Two writers are too many for the results of `ProxyResults`. For every key, lifetime, headers, and any
   two bodies cut at the same place, two overlapping puts lead to a file that reads, under the right
   key, as the beginning of one body and the end of the other, and that is then served as fresh, though
   nobody has ever put it.
   */
  lemma TornResponseIsServed(cfg: Config, key: string, ttl: nat, headers: seq<Header>, a1: seq<byte>, a2: seq<byte>, b1: seq<byte>, b2: seq<byte>)
    requires cfg.maxEntries >= 1 && CaptureTtl(200, headers) == Some(ttl) && ttl > 0
    requires |a1| == |b1| && |a2| == |b2| && a1 != b1 && a2 != b2
    requires Writable(EarlyPut(key, ttl, headers, a1 + a2)) && Writable(EarlyPut(key, ttl, headers, b1 + b2))
    ensures exists s: Proxy, x ::
              && Reachable(cfg, s) && x in s.served && x.ServedFresh? && x.key == key
              && x.response == EarlyPut(key, ttl, headers, b1 + a2).v.response
              && |s.puts| == 2 && forall p | p in s.puts :: p.v.response != x.response
  {
    hide Reachable;
    hide CaptureTtl;
    hide Captured;
    hide Writable;
    var v := EarlyPut(key, ttl, headers, b1 + a2).v;
    var s, seen := TornIsRead(cfg, key, ttl, headers, a1, a2, b1, b2);
    TornIsNeither(key, ttl, headers, a1, a2, b1, b2);
    FillFresh(cfg, s, 3, key, v, seen);
    s := Reply(Goto(s.(memory := map[key := v]), 3, Idle), Some(ServedFresh(key, 0, v.response)));
    assert ServedFresh(key, 0, v.response) in s.served;
  }

  lemma WholeSecondsKept(ttl: nat)
    ensures DiskExpiry(0 + Seconds(ttl)) == Seconds(ttl)
  {
  }

  // ---------- How many writers ----------

  /** The requests writing to the temporary file of a hash. */
  function Writers(cfg: Config, s: Proxy, h: nat): set<nat> {
    set t | t in s.threads && s.threads[t].PutWriting? && cfg.hash(s.threads[t].p.key) == h
  }

  ghost predicate FewWriters(cfg: Config, s: Proxy, k: nat) {
    forall h :: |Writers(cfg, s, h)| <= k
  }

  /** A run in which no hash ever has more than `k` writers at once. */
  ghost predicate WritersRun(cfg: Config, states: seq<Proxy>, turns: seq<Turn>, k: nat) {
    ProxyMachine.Run(cfg, states, turns) && forall s | s in states :: FewWriters(cfg, s, k)
  }

  lemma OneIsSole(cfg: Config, s: Proxy, k: nat)
    requires FewWriters(cfg, s, k) && k <= 1
    ensures SoleWriter(cfg, s)
  {
    forall t, u | t in s.threads && u in s.threads && t != u && s.threads[t].PutWriting? && s.threads[u].PutWriting?
      ensures cfg.hash(s.threads[t].p.key) != cfg.hash(s.threads[u].p.key)
    {
      var h := cfg.hash(s.threads[t].p.key);
      if cfg.hash(s.threads[u].p.key) == h {
        assert {t, u} <= Writers(cfg, s, h);
        SubsetSize({t, u}, Writers(cfg, s, h));
      }
    }
  }

  /** The requests in the middle of a put. */
  function Putters(s: Proxy): set<nat> {
    set t | t in s.threads && LastPutWins.Putting(s.threads[t])
  }

  /** Only a step that begins a put makes another request a putter. */
  lemma PuttersStep(cfg: Config, s: Proxy, t: nat, a: Action)
    requires Enabled(cfg, s, t, a)
    ensures Putters(Apply(cfg, s, t, a)) <= Putters(s) + (if Begins(s, t, a).Some? then {t} else {})
  {
    hide Enabled;
    hide Apply;
    hide Begins;
    hide Inserted;
    if LastPutWins.Quiet(a) {
      LastPutWins.QuietStep(cfg, s, t, a);
    } else if a.Fill? {
      LastPutWins.RefillMoves(cfg, s, t, a.hasTarget, a.memory);
    } else if a.Insert? {
      LastPutWins.InsertStep(cfg, s, t, a.memory);
    } else if a.Rename? {
      ApplyRename(cfg, s, t);
    } else {
      ApplyRestart(cfg, s, t);
    }
  }

  /** So there are never more of them than puts begun so far. */
  lemma {:induction false} PuttersBounded(cfg: Config, states: seq<Proxy>, turns: seq<Turn>, n: nat)
    requires ProxyMachine.Run(cfg, states, turns) && n <= |turns|
    ensures |Putters(states[n])| <= |states[n].puts|
  {
    hide Enabled;
    hide Apply;
    hide Begins;
    if n == 0 {
      assert Putters(INIT) == {};
    } else {
      var s, t, a := states[n - 1], turns[n - 1].thread, turns[n - 1].action;
      PuttersBounded(cfg, states, turns, n - 1);
      HistoryStep(cfg, s, t, a);
      PuttersStep(cfg, s, t, a);
      hide Putters;
      SubsetSize(Putters(states[n]), Putters(s) + if Begins(s, t, a).Some? then {t} else {});
    }
  }

  lemma {:induction false} PutsOnlyGrow(cfg: Config, states: seq<Proxy>, turns: seq<Turn>, i: nat, n: nat)
    requires ProxyMachine.Run(cfg, states, turns) && i <= n <= |turns|
    ensures |states[i].puts| <= |states[n].puts|
    decreases n
  {
    hide Enabled;
    hide Apply;
    hide Begins;
    if i < n {
      PutsOnlyGrow(cfg, states, turns, i, n - 1);
      HistoryStep(cfg, states[n - 1], turns[n - 1].thread, turns[n - 1].action);
    }
  }

  /** A run with few puts has few writers. */
  lemma FewPutsFewWriters(cfg: Config, states: seq<Proxy>, turns: seq<Turn>, k: nat)
    requires ProxyMachine.Run(cfg, states, turns) && |states[|turns|].puts| <= k
    ensures WritersRun(cfg, states, turns, k)
  {
    hide Enabled;
    hide Apply;
    forall s, h | s in states ensures |Writers(cfg, s, h)| <= k {
      var i :| 0 <= i < |states| && states[i] == s;
      PuttersBounded(cfg, states, turns, i);
      PutsOnlyGrow(cfg, states, turns, i, |turns|);
      SubsetSize(Writers(cfg, s, h), Putters(s));
    }
  }

  // ---------- The exact condition ----------

  /** Whatever a request has read of a file was put under the key it reads for. */
  ghost predicate ReadsOnlyPuts(s: Proxy) {
    forall t | t in s.threads && s.threads[t].Filling? :: Backed(s.puts, s.threads[t].key, s.threads[t].v)
  }

  /** Whatever was served as fresh was put under its key. */
  ghost predicate ServesOnlyPuts(s: Proxy) {
    forall x | x in s.served && x.ServedFresh? :: OnceStored(s.puts, x.key, x.response)
  }

  ghost predicate AlwaysReadsPuts(cfg: Config, k: nat) {
    forall states, turns | WritersRun(cfg, states, turns, k) :: forall s | s in states :: ReadsOnlyPuts(s)
  }

  ghost predicate AlwaysServesPuts(cfg: Config, k: nat) {
    forall states, turns | WritersRun(cfg, states, turns, k) :: forall s | s in states :: ServesOnlyPuts(s)
  }

  lemma SoleRunsAreSafe(cfg: Config, states: seq<Proxy>, turns: seq<Turn>, k: nat, n: nat)
    requires WritersRun(cfg, states, turns, k) && k <= 1 && n <= |turns|
    ensures ReadsOnlyPuts(states[n]) && ServesOnlyPuts(states[n])
  {
    hide Enabled;
    hide Apply;
    forall s | s in states ensures SoleWriter(cfg, s) {
      OneIsSole(cfg, s, k);
    }
    RunKeepsInv(cfg, states, turns, n);
    InvParts(cfg, states[n]);
    hide WritersRun;
    HistoryIsSafe(states[n]);
  }

  lemma HistoryIsSafe(s: Proxy)
    requires HistoryOk(s)
    ensures ReadsOnlyPuts(s) && ServesOnlyPuts(s)
  {
    hide Sound;
    hide SameUpToDisk;
    forall t | t in s.threads && s.threads[t].Filling? ensures Backed(s.puts, s.threads[t].key, s.threads[t].v) {
      assert PhaseOk(s.puts, s.threads[t]);
    }
    forall x | x in s.served && x.ServedFresh? ensures OnceStored(s.puts, x.key, x.response) {
      assert ServedOk(s.puts, x);
      var p :| p in s.puts && FreshFrom(p, x.key, x.now, x.response);
      assert StoredBy(p, x.key, x.response);
    }
  }

  /** A reachable state with few puts is one of such a run. */
  lemma ReachedWithFew(cfg: Config, s: Proxy, k: nat) returns (states: seq<Proxy>, turns: seq<Turn>)
    requires Reachable(cfg, s) && |s.puts| <= k
    ensures WritersRun(cfg, states, turns, k) && s in states
  {
    hide Enabled;
    hide Apply;
    states, turns :| RunsTo(cfg, states, turns, s);
    FewPutsFewWriters(cfg, states, turns, k);
    assert states[|turns|] == s;
  }

  /** A response that any cache would store for a second. */
  function PlainHeaders(): seq<Header> {
    [Header("cache-control", MAX_AGE + Decimal(1))]
  }

  lemma PlainIsCaptured()
    ensures CaptureTtl(200, PlainHeaders()) == Some(1)
  {
    var h := PlainHeaders()[0];
    assert PlainHeaders() == [h] + [];
    HeaderStep(h, [], "cache-control");
    HeaderStep(h, [], "set-cookie");
    HeaderStep(h, [], "vary");
    NoHeaders("set-cookie");
    NoHeaders("vary");
    DifferentNames();
    SameNames();
    MaxAgeOfDecimal(1);
    assert Visible(h.value);
    hide Visible;
    hide MaxAge;
    hide HasDirective;
    hide EqIgnoreAsciiCase;
    hide FirstValue;
  }

  lemma PlainIsWritable(body: seq<byte>)
    requires |body| == 2
    ensures Writable(EarlyPut("", 1, PlainHeaders(), body))
  {
    var h := PlainHeaders()[0];
    assert Decimal(1) == "1";
    assert Captured(PlainHeaders()[1..]) == [];
    assert |Captured(PlainHeaders())| <= 1 && forall x | x in Captured(PlainHeaders()) :: x == h;
  }

  /**
   The exact condition: all runs in which no hash has more than `k` writers at once read only what was put,
   and serve as fresh only what was put, under the key asked for, if and only if `k` is at most 1.
   */
  lemma OneWriterExactly(cfg: Config, k: nat)
    requires cfg.maxEntries >= 1
    ensures AlwaysReadsPuts(cfg, k) <==> k <= 1
    ensures AlwaysServesPuts(cfg, k) <==> k <= 1
  {
    if k <= 1 {
      forall states, turns, s | WritersRun(cfg, states, turns, k) && s in states
        ensures ReadsOnlyPuts(s) && ServesOnlyPuts(s)
      {
        var n :| 0 <= n < |states| && states[n] == s;
        SoleRunsAreSafe(cfg, states, turns, k, n);
      }
    } else {
      TwoWritersMisread(cfg, k);
      TwoWritersMisserve(cfg, k);
    }
  }

  lemma TwoWritersMisread(cfg: Config, k: nat)
    requires cfg.maxEntries >= 1 && k >= 2
    ensures !AlwaysReadsPuts(cfg, k)
  {
    hide Reachable;
    hide Captured;
    hide Writable;
    PlainIsCaptured();
    hide CaptureTtl;
    PlainIsWritable([0] + [0]);
    PlainIsWritable([1] + [1]);
    var s, seen := TornIsRead(cfg, "", 1, PlainHeaders(), [0], [0], [1], [1]);
    TornIsNeither("", 1, PlainHeaders(), [0], [0], [1], [1]);
    hide PlainHeaders;
    var states, turns := ReachedWithFew(cfg, s, k);
    hide WritersRun;
    assert !Backed(s.puts, s.threads[3].key, s.threads[3].v);
    assert !ReadsOnlyPuts(s);
  }

  lemma TwoWritersMisserve(cfg: Config, k: nat)
    requires cfg.maxEntries >= 1 && k >= 2
    ensures !AlwaysServesPuts(cfg, k)
  {
    hide Reachable;
    hide Captured;
    hide Writable;
    PlainIsCaptured();
    hide CaptureTtl;
    PlainIsWritable([0] + [0]);
    PlainIsWritable([1] + [1]);
    TornResponseIsServed(cfg, "", 1, PlainHeaders(), [0], [0], [1], [1]);
    var s: Proxy, x :| Reachable(cfg, s) && x in s.served && x.ServedFresh? && x.key == ""
                       && |s.puts| == 2 && forall p | p in s.puts :: p.v.response != x.response;
    hide PlainHeaders;
    var states, turns := ReachedWithFew(cfg, s, k);
    hide WritersRun;
    assert !OnceStored(s.puts, x.key, x.response);
    assert !ServesOnlyPuts(s);
  }
}
