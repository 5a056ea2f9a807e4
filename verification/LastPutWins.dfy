/**
 When "last put wins" holds of the interleaved machine: with puts of one hash one after the other, and
 no put failing, memory goes wrong exactly by a refill that comes after a later put was published.
 */
module LastPutWins {
  import opened Base
  import opened Codec
  import opened Policy
  import opened CacheStore
  import opened ProxyMachine
  import opened ProxyFiles
  import opened ProxyResults

  // ---------- Puts one after the other ----------

  /** From the beginning of a put to its end. */
  predicate Putting(ph: Phase) {
    ph.PutEvicting? || ph.PutOpening? || ph.PutWriting? || ph.PutRenaming? || ph.PutInserting?
  }

  ghost predicate OneAtATime(cfg: Config, s: Proxy) {
    forall t, u | t in s.threads && u in s.threads && t != u && Putting(s.threads[t]) && Putting(s.threads[u]) ::
      cfg.hash(s.threads[t].p.key) != cfg.hash(s.threads[u].p.key)
  }

  /** Puts of one hash do not overlap, and none fails to reach the disk. */
  ghost predicate Orderly(cfg: Config, states: seq<Proxy>, turns: seq<Turn>) {
    && ProxyMachine.Run(cfg, states, turns)
    && (forall s | s in states :: OneAtATime(cfg, s))
    && forall i | 0 <= i < |turns| && turns[i].action == DiskFault :: !Putting(PhaseOf(states[i], turns[i].thread))
  }

  lemma OrderlyIsExclusive(cfg: Config, states: seq<Proxy>, turns: seq<Turn>)
    requires Orderly(cfg, states, turns)
    ensures ExclusiveRun(cfg, states, turns)
  {
    hide Enabled;
    hide Apply;
    forall s | s in states ensures Exclusive(cfg, s) {
      assert OneAtATime(cfg, s);
    }
  }

  /** The last put of a key among some. */
  function LastOfKey(ps: seq<PutRecord>, key: string): (r: Option<PutRecord>)
    ensures r.Some? ==> r.value in ps && r.value.key == key
  {
    if ps == [] then None
    else
      var p := ps[|ps| - 1];
      if p.key == key then Some(p) else LastOfKey(ps[..|ps| - 1], key)
  }

  lemma LastOfKeySnoc(ps: seq<PutRecord>, p: PutRecord, key: string)
    ensures LastOfKey(ps + [p], key) == if p.key == key then Some(p) else LastOfKey(ps, key)
  {
    assert (ps + [p])[..|ps|] == ps;
  }

  lemma {:induction false} LastOfKeyConcat(a: seq<PutRecord>, b: seq<PutRecord>, key: string)
    ensures LastOfKey(a + b, key) == if LastOfKey(b, key).Some? then LastOfKey(b, key) else LastOfKey(a, key)
    decreases |b|
  {
    if b == [] {
      assert a + b == a;
    } else {
      var n := |b| - 1;
      assert a + b == (a + b[..n]) + [b[n]];
      LastOfKeySnoc(a + b[..n], b[n], key);
      LastOfKeyConcat(a, b[..n], key);
    }
  }

  /** If the last put of a hash is one of the key, it is the last put of the key. */
  lemma {:induction false} LastOfHashIsLastOfKey(cfg: Config, ps: seq<PutRecord>, key: string)
    ensures var last := LastOfHash(cfg, ps, cfg.hash(key));
            last.Some? && last.value.key == key ==> LastOfKey(ps, key) == last
  {
    if ps != [] && cfg.hash(ps[|ps| - 1].key) != cfg.hash(key) {
      LastOfHashIsLastOfKey(cfg, ps[..|ps| - 1], key);
    }
  }

  // ---------- What memory holds ----------

  predicate InsertingKey(ph: Phase, key: string) {
    ph.PutInserting? && ph.p.key == key
  }

  /** A put of the key has been published and is about to reach memory. */
  ghost predicate Inserting(s: Proxy, key: string) {
    exists t :: t in s.threads && InsertingKey(s.threads[t], key)
  }

  /** Memory holds the last published put of each of its keys, unless that one is just being inserted. */
  ghost predicate MemoryIsLast(s: Proxy) {
    forall k | k in s.memory :: Inserting(s, k) || SameAsLast(s.published, k, s.memory[k])
  }

  predicate SameAsLast(published: seq<PutRecord>, key: string, v: Stored) {
    var last := LastOfKey(published, key);
    last.Some? && SameUpToDisk(v, last.value.v)
  }

  /**
   The refill that goes wrong: since it opened its file, a put of the key with another response or
   expiry was published, and none is about to be inserted.
   */
  ghost predicate Outdated(s: Proxy, t: nat) {
    var ph := PhaseOf(s, t);
    && ph.Filling? && ph.seen <= |s.published| && !Inserting(s, ph.key)
    && var later := LastOfKey(s.published[ph.seen..], ph.key);
       later.Some? && !SameUpToDisk(ph.v, later.value.v)
  }

  /** A put being inserted is the last one published of its hash. */
  ghost predicate InsertsLast(cfg: Config, s: Proxy) {
    forall t | t in s.threads && s.threads[t].PutInserting? ::
      LastOfHash(cfg, s.published, cfg.hash(s.threads[t].p.key)) == Some(s.threads[t].p)
  }

  /** The steps that concern neither memory nor the publications. */
  predicate Quiet(a: Action) {
    !a.Fill? && !a.Rename? && !a.Insert? && !a.Restart?
  }

  /** Only its own phase changes, and a put goes on with what it puts. */
  ghost predicate Moved(s: Proxy, t: nat, a: Action, s': Proxy) {
    var ph, ph' := PhaseOf(s, t), PhaseOf(s', t);
    && s'.memory == s.memory && s'.published == s.published && s'.threads == s.threads[t := ph']
    && match Begins(s, t, a)
       case Some(p) => !Putting(ph) && ph'.PutEvicting? && ph'.p == p
       case None => Putting(ph) == Putting(ph') && (Putting(ph) ==> ph.p == ph'.p)
                    && !ph.PutInserting? && (ph'.PutInserting? ==> a == DiskFault)
  }

  lemma LookupMoves(cfg: Config, s: Proxy, t: nat, a: Action)
    requires Enabled(cfg, s, t, a) && (a.Begin? || a.OpenFile? || a.ReadSome? || a.ReadEnd? || a.DiskFault?)
    ensures Moved(s, t, a, Apply(cfg, s, t, a))
  {
    hide Decoding;
  }

  lemma ProbeMoves(cfg: Config, s: Proxy, t: nat, a: Action)
    requires Enabled(cfg, s, t, a) && a.Probe?
    ensures Moved(s, t, a, Apply(cfg, s, t, a))
  {
    hide Etag;
  }

  lemma OriginMoves(cfg: Config, s: Proxy, t: nat, a: Action)
    requires Enabled(cfg, s, t, a)
    requires a.NotModified? || a.Modified? || a.RevalidationFailed? || a.Head? || a.Store? || a.Abandon?
    ensures Moved(s, t, a, Apply(cfg, s, t, a))
  {
    hide StoredTtl;
    hide CaptureTtl;
    hide Captured;
    hide Writable;
  }

  lemma PutMoves(cfg: Config, s: Proxy, t: nat, a: Action)
    requires Enabled(cfg, s, t, a) && (a.Evict? || a.Open? || a.Write?)
    ensures Moved(s, t, a, Apply(cfg, s, t, a))
  {
    hide FileOf;
    hide WriteAt;
    match a {
      case Evict(victim) => ApplyEvict(cfg, s, t, victim);
      case Open(ino, clock) => ApplyOpen(cfg, s, t, ino, clock);
      case Write(n, clock) => ApplyWrite(cfg, s, t, n, clock);
    }
    hide Enabled;
    hide Apply;
  }

  lemma QuietStep(cfg: Config, s: Proxy, t: nat, a: Action)
    requires Enabled(cfg, s, t, a) && Quiet(a)
    ensures Moved(s, t, a, Apply(cfg, s, t, a))
  {
    hide Enabled;
    hide Apply;
    hide Moved;
    match a {
      case Begin(_, _, _) => LookupMoves(cfg, s, t, a);
      case Probe(_) => ProbeMoves(cfg, s, t, a);
      case OpenFile => LookupMoves(cfg, s, t, a);
      case ReadSome(_) => LookupMoves(cfg, s, t, a);
      case ReadEnd => LookupMoves(cfg, s, t, a);
      case DiskFault => LookupMoves(cfg, s, t, a);
      case Evict(_) => PutMoves(cfg, s, t, a);
      case Open(_, _) => PutMoves(cfg, s, t, a);
      case Write(_, _) => PutMoves(cfg, s, t, a);
      case _ => OriginMoves(cfg, s, t, a);
    }
  }

  lemma RefillMoves(cfg: Config, s: Proxy, t: nat, hasTarget: bool, memory: Memory)
    requires Enabled(cfg, s, t, Fill(hasTarget, memory))
    ensures var s' := Apply(cfg, s, t, Fill(hasTarget, memory));
            && t in s.threads && s.threads[t].Filling?
            && Inserted(cfg.maxEntries, s.memory, s.threads[t].key, s.threads[t].v, memory)
            && s'.memory == memory && s'.published == s.published
            && s'.threads == s.threads[t := PhaseOf(s', t)] && !Putting(PhaseOf(s', t))
  {
    hide Inserted;
    hide Etag;
  }

  lemma InsertStep(cfg: Config, s: Proxy, t: nat, memory: Memory)
    requires Enabled(cfg, s, t, Insert(memory))
    ensures var s' := Apply(cfg, s, t, Insert(memory));
            && t in s.threads && s.threads[t].PutInserting?
            && Inserted(cfg.maxEntries, s.memory, s.threads[t].p.key, s.threads[t].p.v, memory)
            && s'.memory == memory && s'.published == s.published && s'.threads == s.threads[t := Idle]
  {
    hide Inserted;
  }

  lemma InsertedKeeps(max: nat, m: Memory, key: string, v: Stored, m': Memory)
    requires Inserted(max, m, key, v, m')
    ensures key in m' && m'[key] == v && forall k | k in m' && k != key :: k in m && m'[k] == m[k]
  {
  }

  lemma RenamePublishes(cfg: Config, s: Proxy, t: nat)
    requires FilesOk(cfg, s) && Enabled(cfg, s, t, Rename)
    ensures t in s.threads && s.threads[t].PutRenaming?
    ensures var s', p := Apply(cfg, s, t, Rename), s.threads[t].p;
            && s'.memory == s.memory && s'.published == s.published + [p]
            && s'.threads == s.threads[t := PutInserting(p, s.threads[t].reply)]
  {
    ApplyRename(cfg, s, t);
    hide Enabled;
    hide Apply;
    WriterIsOk(cfg, s, t);
  }

  lemma StepKeepsInsertsLast(cfg: Config, s: Proxy, t: nat, a: Action)
    requires FilesOk(cfg, s) && OneAtATime(cfg, s) && InsertsLast(cfg, s) && Enabled(cfg, s, t, a)
    requires a == DiskFault ==> !Putting(PhaseOf(s, t))
    ensures InsertsLast(cfg, Apply(cfg, s, t, a))
  {
    hide FilesOk;
    hide Enabled;
    hide Apply;
    hide LastOfHash;
    if a.Rename? {
      RenamePublishes(cfg, s, t);
      forall h ensures LastOfHash(cfg, s.published + [s.threads[t].p], h)
                    == if cfg.hash(s.threads[t].p.key) == h then Some(s.threads[t].p) else LastOfHash(cfg, s.published, h)
      {
        LastOfHashSnoc(cfg, s.published, s.threads[t].p, h);
      }
    } else if a.Restart? {
      ApplyRestart(cfg, s, t);
    } else if a.Insert? {
      InsertStep(cfg, s, t, a.memory);
    } else if a.Fill? {
      RefillMoves(cfg, s, t, a.hasTarget, a.memory);
    } else {
      QuietStep(cfg, s, t, a);
    }
  }

  /** What the theorem's runs keep. */
  lemma {:induction false} OrderlyKeeps(cfg: Config, states: seq<Proxy>, turns: seq<Turn>, n: nat)
    requires Orderly(cfg, states, turns) && n <= |turns|
    ensures FilesOk(cfg, states[n]) && OneAtATime(cfg, states[n]) && InsertsLast(cfg, states[n])
  {
    OrderlyIsExclusive(cfg, states, turns);
    RunKeepsFiles(cfg, states, turns, n);
    hide Enabled;
    hide Apply;
    hide FilesOk;
    hide HistoryOk;
    hide OneAtATime;
    assert states[n] in states;
    if n > 0 {
      hide InsertsLast;
      OrderlyKeeps(cfg, states, turns, n - 1);
      StepKeepsInsertsLast(cfg, states[n - 1], turns[n - 1].thread, turns[n - 1].action);
    }
  }

  // ---------- Each step ----------

  /** A step that changes neither memory nor what has been published, and ends no insertion. */
  lemma SameMemory(s: Proxy, t: nat, s': Proxy)
    requires MemoryIsLast(s) && s'.memory == s.memory && s'.published == s.published
    requires s'.threads == s.threads[t := PhaseOf(s', t)] && !PhaseOf(s, t).PutInserting?
    ensures MemoryIsLast(s')
  {
    hide SameAsLast;
    forall k | k in s'.memory && Inserting(s, k) ensures Inserting(s', k) {
      StillInserting(s, t, s', k);
    }
  }

  lemma StillInserting(s: Proxy, t: nat, s': Proxy, key: string)
    requires Inserting(s, key) && s'.threads == s.threads[t := PhaseOf(s', t)] && !InsertingKey(PhaseOf(s, t), key)
    ensures Inserting(s', key)
  {
    var u :| u in s.threads && InsertingKey(s.threads[u], key);
    assert u in s'.threads && InsertingKey(s'.threads[u], key);
  }

  lemma RenameKeepsLast(cfg: Config, s: Proxy, t: nat)
    requires FilesOk(cfg, s) && Enabled(cfg, s, t, Rename) && MemoryIsLast(s)
    ensures MemoryIsLast(Apply(cfg, s, t, Rename))
  {
    hide Enabled;
    hide Apply;
    hide FilesOk;
    hide LastOfKey;
    RenamePublishes(cfg, s, t);
    var s', p := Apply(cfg, s, t, Rename), s.threads[t].p;
    forall k | k in s'.memory ensures Inserting(s', k) || SameAsLast(s'.published, k, s'.memory[k]) {
      LastOfKeySnoc(s.published, p, k);
      if k == p.key {
        assert InsertingKey(s'.threads[t], k);
      } else if Inserting(s, k) {
        StillInserting(s, t, s', k);
      }
    }
  }

  lemma InsertKeepsLast(cfg: Config, s: Proxy, t: nat, memory: Memory)
    requires InsertsLast(cfg, s) && Enabled(cfg, s, t, Insert(memory)) && MemoryIsLast(s)
    ensures MemoryIsLast(Apply(cfg, s, t, Insert(memory)))
  {
    hide Enabled;
    hide Apply;
    hide LastOfKey;
    hide LastOfHash;
    hide Inserted;
    InsertStep(cfg, s, t, memory);
    var s', p := Apply(cfg, s, t, Insert(memory)), s.threads[t].p;
    InsertedKeeps(cfg.maxEntries, s.memory, p.key, p.v, memory);
    LastOfHashIsLastOfKey(cfg, s.published, p.key);
    forall k | k in s'.memory ensures Inserting(s', k) || SameAsLast(s'.published, k, s'.memory[k]) {
      if k != p.key && Inserting(s, k) {
        StillInserting(s, t, s', k);
      }
    }
  }

  /** What a filler holds is the last put of its key published before it opened the file. */
  lemma FillerSawLast(cfg: Config, s: Proxy, t: nat)
    requires FilesOk(cfg, s) && t in s.threads && s.threads[t].Filling?
    ensures var ph := s.threads[t];
            ph.seen <= |s.published| && SameAsLast(s.published[..ph.seen], ph.key, ph.v)
  {
    hide LastOfHash;
    hide LastOfKey;
    hide Linked;
    hide Holds;
    var ph := s.threads[t];
    assert FilePhaseOk(cfg, s, ph);
    var q :| SeenLast(cfg, s.published, ph.seen, ph.key, q) && q.key == ph.key
             && ph.v == Stored(DiskExpiry(q.v.expiry), q.v.response);
    LastOfHashIsLastOfKey(cfg, s.published[..ph.seen], ph.key);
  }

  /** After a refill memory holds the last put of that key, or one is being inserted, exactly unless it was outdated. */
  lemma FillIsLast(cfg: Config, s: Proxy, t: nat, hasTarget: bool, memory: Memory)
    requires FilesOk(cfg, s) && Enabled(cfg, s, t, Fill(hasTarget, memory))
    ensures var s', key := Apply(cfg, s, t, Fill(hasTarget, memory)), PhaseOf(s, t).key;
            && key in s'.memory
            && ((Inserting(s', key) || SameAsLast(s'.published, key, s'.memory[key])) <==> !Outdated(s, t))
  {
    hide Enabled;
    hide Apply;
    hide FilesOk;
    hide LastOfKey;
    hide Inserted;
    RefillMoves(cfg, s, t, hasTarget, memory);
    FillerSawLast(cfg, s, t);
    var ph, s' := s.threads[t], Apply(cfg, s, t, Fill(hasTarget, memory));
    InsertedKeeps(cfg.maxEntries, s.memory, ph.key, ph.v, memory);
    assert s.published == s.published[..ph.seen] + s.published[ph.seen..];
    LastOfKeyConcat(s.published[..ph.seen], s.published[ph.seen..], ph.key);
    SameInserting(s, t, s', ph.key);
  }

  lemma SameInserting(s: Proxy, t: nat, s': Proxy, key: string)
    requires s'.threads == s.threads[t := PhaseOf(s', t)] && !PhaseOf(s, t).PutInserting? && !PhaseOf(s', t).PutInserting?
    ensures Inserting(s', key) <==> Inserting(s, key)
  {
    if Inserting(s, key) {
      StillInserting(s, t, s', key);
    }
    if Inserting(s', key) {
      var u :| u in s'.threads && InsertingKey(s'.threads[u], key);
      assert u in s.threads && InsertingKey(s.threads[u], key);
    }
  }

  lemma FillKeepsLast(cfg: Config, s: Proxy, t: nat, hasTarget: bool, memory: Memory)
    requires FilesOk(cfg, s) && Enabled(cfg, s, t, Fill(hasTarget, memory)) && MemoryIsLast(s) && !Outdated(s, t)
    ensures MemoryIsLast(Apply(cfg, s, t, Fill(hasTarget, memory)))
  {
    hide Enabled;
    hide Apply;
    hide FilesOk;
    hide SameAsLast;
    hide Outdated;
    hide Inserted;
    RefillMoves(cfg, s, t, hasTarget, memory);
    FillIsLast(cfg, s, t, hasTarget, memory);
    var ph, s' := s.threads[t], Apply(cfg, s, t, Fill(hasTarget, memory));
    InsertedKeeps(cfg.maxEntries, s.memory, ph.key, ph.v, memory);
    forall k | k in s'.memory ensures Inserting(s', k) || SameAsLast(s'.published, k, s'.memory[k]) {
      SameInserting(s, t, s', k);
    }
  }

  // ---------- Main results ----------

  ghost predicate NoOutdatedFill(states: seq<Proxy>, turns: seq<Turn>)
    requires |states| == |turns| + 1
  {
    forall i | 0 <= i < |turns| && turns[i].action.Fill? :: !Outdated(states[i], turns[i].thread)
  }

  lemma {:induction false} MemoryStaysLast(cfg: Config, states: seq<Proxy>, turns: seq<Turn>, n: nat)
    requires Orderly(cfg, states, turns) && n <= |turns| && NoOutdatedFill(states, turns)
    ensures MemoryIsLast(states[n])
  {
    hide Enabled;
    hide Apply;
    hide FilesOk;
    hide OneAtATime;
    hide InsertsLast;
    hide Outdated;
    if n > 0 {
      hide MemoryIsLast;
      var s, t, a := states[n - 1], turns[n - 1].thread, turns[n - 1].action;
      MemoryStaysLast(cfg, states, turns, n - 1);
      OrderlyKeeps(cfg, states, turns, n - 1);
      match a {
        case Fill(hasTarget, memory) => FillKeepsLast(cfg, s, t, hasTarget, memory);
        case Rename => RenameKeepsLast(cfg, s, t);
        case Insert(memory) => InsertKeepsLast(cfg, s, t, memory);
        case Restart =>
          ApplyRestart(cfg, s, t);
          EmptyIsLast(states[n]);
        case _ =>
          QuietStep(cfg, s, t, a);
          SameMemory(s, t, states[n]);
      }
    }
  }

  lemma EmptyIsLast(s: Proxy)
    requires s.memory == map[]
    ensures MemoryIsLast(s)
  {
  }

  /**
   The exact condition for memory: with puts of one hash one after the other, and none failing, memory
   holds the last published put of each of its keys in every state of a run - whatever is evicted,
   restarted or hashed alike - if and only if no refill of the run comes after a different put of its
   key was published since it opened its file.
   */
  lemma MemoryIsLastExactly(cfg: Config, states: seq<Proxy>, turns: seq<Turn>)
    requires Orderly(cfg, states, turns)
    ensures (forall n | 0 <= n <= |turns| :: MemoryIsLast(states[n])) <==> NoOutdatedFill(states, turns)
  {
    if NoOutdatedFill(states, turns) {
      forall n | 0 <= n <= |turns| ensures MemoryIsLast(states[n]) {
        MemoryStaysLast(cfg, states, turns, n);
      }
    } else {
      var i :| 0 <= i < |turns| && turns[i].action.Fill? && Outdated(states[i], turns[i].thread);
      OrderlyKeeps(cfg, states, turns, i);
      RunStep(cfg, states, turns, i);
      hide ProxyMachine.Run;
      hide Enabled;
      hide Apply;
      hide FilesOk;
      hide Outdated;
      FillIsLast(cfg, states[i], turns[i].thread, turns[i].action.hasTarget, turns[i].action.memory);
      assert !MemoryIsLast(states[i + 1]);
    }
  }

  // ---------- The last put published is the last put begun ----------

  predicate Pending(ph: Phase) {
    Putting(ph) && !ph.PutInserting?
  }

  function OfHash(cfg: Config, ps: seq<PutRecord>, h: nat): seq<PutRecord> {
    if ps == [] then []
    else
      var n := |ps| - 1;
      OfHash(cfg, ps[..n], h) + if cfg.hash(ps[n].key) == h then [ps[n]] else []
  }

  lemma OfHashSnoc(cfg: Config, ps: seq<PutRecord>, p: PutRecord, h: nat)
    ensures OfHash(cfg, ps + [p], h) == OfHash(cfg, ps, h) + if cfg.hash(p.key) == h then [p] else []
  {
    assert (ps + [p])[..|ps|] == ps;
  }

  lemma {:induction false} LastOfKeyOfHash(cfg: Config, ps: seq<PutRecord>, key: string)
    ensures LastOfKey(OfHash(cfg, ps, cfg.hash(key)), key) == LastOfKey(ps, key)
  {
    if ps != [] {
      var n, h := |ps| - 1, cfg.hash(key);
      LastOfKeyOfHash(cfg, ps[..n], key);
      if cfg.hash(ps[n].key) == h {
        LastOfKeySnoc(OfHash(cfg, ps[..n], h), ps[n], key);
      } else {
        assert OfHash(cfg, ps[..n], h) + [] == OfHash(cfg, ps[..n], h);
      }
    }
  }

  ghost predicate NobodyPending(cfg: Config, s: Proxy, h: nat) {
    forall t | t in s.threads && Pending(s.threads[t]) :: cfg.hash(s.threads[t].p.key) != h
  }

  /** Puts of a hash are published in the order they are begun; at most the last one is not published yet. */
  ghost predicate InOrder(cfg: Config, s: Proxy) {
    && (forall t | t in s.threads && Pending(s.threads[t]) :: InOrderBut(cfg, s, s.threads[t].p))
    && forall h | NobodyPending(cfg, s, h) :: OfHash(cfg, s.puts, h) == OfHash(cfg, s.published, h)
  }

  ghost predicate InOrderBut(cfg: Config, s: Proxy, p: PutRecord) {
    OfHash(cfg, s.puts, cfg.hash(p.key)) == OfHash(cfg, s.published, cfg.hash(p.key)) + [p]
  }

  lemma FillAndInsertBeginNothing(s: Proxy, t: nat, a: Action)
    requires a.Fill? || a.Insert?
    ensures Begins(s, t, a) == None
  {
  }

  /** How a step other than a rename and a restart moves its thread. */
  lemma PendingStep(cfg: Config, s: Proxy, t: nat, a: Action)
    requires Enabled(cfg, s, t, a) && !a.Rename? && !a.Restart? && (a == DiskFault ==> !Putting(PhaseOf(s, t)))
    ensures var s', ph, ph' := Apply(cfg, s, t, a), PhaseOf(s, t), PhaseOf(Apply(cfg, s, t, a), t);
            && s'.published == s.published && s'.threads == s.threads[t := ph']
            && (Begins(s, t, a).Some? ==> !Pending(ph) && Pending(ph') && ph'.p == Begins(s, t, a).value)
            && (Begins(s, t, a).None? ==> (Pending(ph) <==> Pending(ph')) && (Pending(ph) ==> ph.p == ph'.p))
  {
    hide Enabled;
    hide Apply;
    hide Begins;
    hide Inserted;
    if Quiet(a) {
      QuietStep(cfg, s, t, a);
    } else {
      FillAndInsertBeginNothing(s, t, a);
      if a.Fill? {
        RefillMoves(cfg, s, t, a.hasTarget, a.memory);
      } else {
        InsertStep(cfg, s, t, a.memory);
      }
    }
  }

  lemma BeginKeepsOrder(cfg: Config, s: Proxy, t: nat, p: PutRecord, s': Proxy)
    requires InOrder(cfg, s) && OneAtATime(cfg, s')
    requires s'.published == s.published && s'.puts == s.puts + [p] && s'.threads == s.threads[t := PhaseOf(s', t)]
    requires !Pending(PhaseOf(s, t)) && Pending(PhaseOf(s', t)) && PhaseOf(s', t).p == p
    ensures InOrder(cfg, s')
  {
    hide OfHash;
    var h := cfg.hash(p.key);
    assert NobodyPending(cfg, s, h) by {
      forall u | u in s.threads && Pending(s.threads[u]) ensures cfg.hash(s.threads[u].p.key) != h {
        assert u != t && s'.threads[u] == s.threads[u];
      }
    }
    forall h' ensures OfHash(cfg, s'.puts, h') == OfHash(cfg, s.puts, h') + if h == h' then [p] else [] {
      OfHashSnoc(cfg, s.puts, p, h');
    }
    forall u | u in s'.threads && Pending(s'.threads[u]) ensures InOrderBut(cfg, s', s'.threads[u].p) {
      if u != t {
        assert s'.threads[u] == s.threads[u] && InOrderBut(cfg, s, s.threads[u].p);
        assert OfHash(cfg, s.puts, cfg.hash(s.threads[u].p.key)) + [] == OfHash(cfg, s.puts, cfg.hash(s.threads[u].p.key));
      }
    }
    forall h' | NobodyPending(cfg, s', h') ensures OfHash(cfg, s'.puts, h') == OfHash(cfg, s'.published, h') {
      assert h' != h;
      assert NobodyPending(cfg, s, h') by { FewerPending(cfg, s, t, s', h'); }
      assert OfHash(cfg, s.puts, h') + [] == OfHash(cfg, s.puts, h');
    }
  }

  lemma FewerPending(cfg: Config, s: Proxy, t: nat, s': Proxy, h: nat)
    requires NobodyPending(cfg, s', h) && s'.threads == s.threads[t := PhaseOf(s', t)]
    requires Pending(PhaseOf(s, t)) ==> cfg.hash(PhaseOf(s, t).p.key) != h
    ensures NobodyPending(cfg, s, h)
  {
    forall u | u in s.threads && Pending(s.threads[u]) ensures cfg.hash(s.threads[u].p.key) != h {
      assert u != t ==> s'.threads[u] == s.threads[u];
    }
  }

  lemma QuietKeepsOrder(cfg: Config, s: Proxy, t: nat, s': Proxy)
    requires InOrder(cfg, s) && s'.published == s.published && s'.puts == s.puts
    requires s'.threads == s.threads[t := PhaseOf(s', t)]
    requires var ph, ph' := PhaseOf(s, t), PhaseOf(s', t);
             (Pending(ph) <==> Pending(ph')) && (Pending(ph) ==> ph.p == ph'.p)
    ensures InOrder(cfg, s')
  {
    hide OfHash;
    forall u | u in s'.threads && Pending(s'.threads[u]) ensures InOrderBut(cfg, s', s'.threads[u].p) {
      assert u in s.threads && Pending(s.threads[u]) && s.threads[u].p == s'.threads[u].p;
      assert InOrderBut(cfg, s, s.threads[u].p);
    }
    forall h | NobodyPending(cfg, s', h) ensures OfHash(cfg, s'.puts, h) == OfHash(cfg, s'.published, h) {
      assert Pending(PhaseOf(s, t)) ==> cfg.hash(PhaseOf(s, t).p.key) != h;
      FewerPending(cfg, s, t, s', h);
    }
  }

  lemma RenameKeepsOrder(cfg: Config, s: Proxy, t: nat, s': Proxy)
    requires InOrder(cfg, s) && OneAtATime(cfg, s) && t in s.threads && s.threads[t].PutRenaming?
    requires s'.published == s.published + [s.threads[t].p] && s'.puts == s.puts
    requires s'.threads == s.threads[t := PutInserting(s.threads[t].p, s.threads[t].reply)]
    ensures InOrder(cfg, s')
  {
    hide OfHash;
    var p, h := s.threads[t].p, cfg.hash(s.threads[t].p.key);
    assert InOrderBut(cfg, s, p);
    forall h' ensures OfHash(cfg, s'.published, h') == OfHash(cfg, s.published, h') + if h == h' then [p] else [] {
      OfHashSnoc(cfg, s.published, p, h');
    }
    forall u | u in s'.threads && Pending(s'.threads[u]) ensures InOrderBut(cfg, s', s'.threads[u].p) {
      assert u != t && s'.threads[u] == s.threads[u] && InOrderBut(cfg, s, s.threads[u].p);
      var q := cfg.hash(s.threads[u].p.key);
      assert q != h && OfHash(cfg, s.published, q) + [] == OfHash(cfg, s.published, q);
    }
    forall h' | NobodyPending(cfg, s', h') ensures OfHash(cfg, s'.puts, h') == OfHash(cfg, s'.published, h') {
      if h' != h {
        FewerPending(cfg, s, t, s', h');
        assert OfHash(cfg, s.published, h') + [] == OfHash(cfg, s.published, h');
      }
    }
  }

  lemma {:induction false} OrderlyIsInOrder(cfg: Config, states: seq<Proxy>, turns: seq<Turn>, n: nat)
    requires Orderly(cfg, states, turns) && n <= |turns|
    requires forall turn | turn in turns :: turn.action != Action.Restart
    ensures InOrder(cfg, states[n])
  {
    hide Enabled;
    hide Apply;
    hide FilesOk;
    hide OneAtATime;
    hide InsertsLast;
    if n > 0 {
      hide InOrder;
      var s, t, a, s' := states[n - 1], turns[n - 1].thread, turns[n - 1].action, states[n];
      OrderlyIsInOrder(cfg, states, turns, n - 1);
      OrderlyKeeps(cfg, states, turns, n - 1);
      HistoryStep(cfg, s, t, a);
      assert turns[n - 1] in turns && s' in states && s in states;
      if a.Rename? {
        RenamePublishes(cfg, s, t);
        RenameBeginsNothing(s, t);
        RenameKeepsOrder(cfg, s, t, s');
      } else {
        PendingStep(cfg, s, t, a);
        if Begins(s, t, a).Some? {
          BeginKeepsOrder(cfg, s, t, Begins(s, t, a).value, s');
        } else {
          QuietKeepsOrder(cfg, s, t, s');
        }
      }
    }
  }

  lemma RenameBeginsNothing(s: Proxy, t: nat)
    ensures Begins(s, t, Rename) == None
  {
  }

  /**
   Last put wins: in a run without a restart whose puts of one hash come one after the other and do not
   fail, and none of whose refills is outdated, whenever nobody is putting anything under a key's hash,
   memory and disk either do not hold the key or hold the last put begun under it.
   */
  lemma LastPutWins(cfg: Config, states: seq<Proxy>, turns: seq<Turn>, n: nat, key: string)
    requires Orderly(cfg, states, turns) && n <= |turns| && NoOutdatedFill(states, turns)
    requires forall turn | turn in turns :: turn.action != Action.Restart
    requires forall t | t in states[n].threads && Putting(states[n].threads[t]) ::
               cfg.hash(states[n].threads[t].p.key) != cfg.hash(key)
    ensures key in states[n].memory ==> SameAsLast(states[n].puts, key, states[n].memory[key])
    ensures var found := DiskGet(cfg.hash, View(states[n]), key);
            found.Some? ==> SameAsLast(states[n].puts, key, found.value)
  {
    hide FilesOk;
    hide OneAtATime;
    hide InsertsLast;
    hide LastOfHash;
    hide LastOfKey;
    hide OfHash;
    hide DiskGet;
    hide NoOutdatedFill;
    var s, h := states[n], cfg.hash(key);
    hide ProxyMachine.Run;
    OrderlyKeeps(cfg, states, turns, n);
    MemoryStaysLast(cfg, states, turns, n);
    OrderlyIsInOrder(cfg, states, turns, n);
    assert NobodyPending(cfg, s, h);
    LastOfKeyOfHash(cfg, s.puts, key);
    LastOfKeyOfHash(cfg, s.published, key);
    ReadsAsLast(cfg, s, key);
    LastOfHashIsLastOfKey(cfg, s.published, key);
  }
}
