/**
 The files of the interleaved machine: while no two puts of one hash hold the temporary file at the
 same time, every published file is one complete entry, and stays so for whoever still reads it.
 */
module ProxyFiles {
  import opened Base
  import opened Codec
  import opened Policy
  import opened CacheStore
  import opened ProxyMachine

  /** The last put of a hash among those published. */
  function LastOfHash(cfg: Config, published: seq<PutRecord>, h: nat): (r: Option<PutRecord>)
    ensures r.Some? ==> r.value in published && cfg.hash(r.value.key) == h
  {
    if published == [] then None
    else
      var p := published[|published| - 1];
      if cfg.hash(p.key) == h then Some(p) else LastOfHash(cfg, published[..|published| - 1], h)
  }

  lemma LastOfHashSnoc(cfg: Config, published: seq<PutRecord>, p: PutRecord, h: nat)
    ensures LastOfHash(cfg, published + [p], h) == if cfg.hash(p.key) == h then Some(p) else LastOfHash(cfg, published, h)
  {
    assert (published + [p])[..|published|] == published;
  }

  /** Every name has an inode, and no two names share one. */
  ghost predicate Linked(dir: map<Name, nat>, data: map<nat, File>) {
    && (forall n | n in dir :: dir[n] in data)
    && forall n, m | n in dir && m in dir && n != m :: dir[n] != dir[m]
  }

  /** The file of a hash holds the last put of that hash to be published. */
  ghost predicate Holds(cfg: Config, s: Proxy, h: nat)
    requires EntryFile(h) in s.dir
  {
    && s.dir[EntryFile(h)] in s.data && LastOfHash(cfg, s.published, h).Some?
    && s.data[s.dir[EntryFile(h)]].bytes == FileOf(LastOfHash(cfg, s.published, h).value)
  }

  /** No temporary file is this inode, so nobody will write to it. */
  ghost predicate Sealed(dir: map<Name, nat>, ino: nat) {
    forall n | n in dir && n.TempFile? :: dir[n] != ino
  }

  /** What a reader found: the put that was the last published when it opened the file. */
  ghost predicate SeenLast(cfg: Config, published: seq<PutRecord>, seen: nat, key: string, q: PutRecord) {
    seen <= |published| && LastOfHash(cfg, published[..seen], cfg.hash(key)) == Some(q)
  }

  ghost predicate ReaderOk(cfg: Config, s: Proxy, ph: Phase)
    requires ph.Reading?
  {
    && ph.ino in s.data && Sealed(s.dir, ph.ino) && ph.got <= s.data[ph.ino].bytes
    && exists q :: SeenLast(cfg, s.published, ph.seen, ph.key, q) && s.data[ph.ino].bytes == FileOf(q)
  }

  ghost predicate FillerOk(cfg: Config, s: Proxy, ph: Phase)
    requires ph.Filling?
  {
    exists q :: SeenLast(cfg, s.published, ph.seen, ph.key, q) && q.key == ph.key
                && ph.v == Stored(DiskExpiry(q.v.expiry), q.v.response)
  }

  /** A writer's inode is the temporary file of its hash, and holds what it has written so far. */
  ghost predicate WriterOk(cfg: Config, s: Proxy, ph: Phase)
    requires HoldsTemp(ph)
  {
    var tmp, bytes := TempFile(cfg.hash(ph.p.key)), FileOf(ph.p);
    && tmp in s.dir && s.dir[tmp] == ph.ino && ph.ino in s.data
    && if ph.PutWriting? then ph.off < |bytes| && s.data[ph.ino].bytes == bytes[..ph.off] else s.data[ph.ino].bytes == bytes
  }

  ghost predicate FilePhaseOk(cfg: Config, s: Proxy, ph: Phase) {
    if ph.Reading? then ReaderOk(cfg, s, ph)
    else if ph.Filling? then FillerOk(cfg, s, ph)
    else if HoldsTemp(ph) then WriterOk(cfg, s, ph)
    else true
  }

  ghost predicate FilesOk(cfg: Config, s: Proxy) {
    && Linked(s.dir, s.data)
    && (forall h | EntryFile(h) in s.dir :: Holds(cfg, s, h))
    && (forall t | t in s.threads :: FilePhaseOk(cfg, s, s.threads[t]))
    && (forall p | p in s.published :: Writable(p))
  }

  // ---------- Steps that leave the files alone ----------

  /** The invariant looks at nothing but the files, the publications and the threads. */
  lemma SameFiles(cfg: Config, s: Proxy, s': Proxy, t: nat)
    requires FilesOk(cfg, s)
    requires s'.dir == s.dir && s'.data == s.data && s'.published == s.published
    requires exists ph :: s'.threads == s.threads[t := ph] && FilePhaseOk(cfg, s, ph)
    ensures FilesOk(cfg, s')
  {
    hide LastOfHash;
    hide Writable;
    hide FileOf;
    hide SeenLast;
    hide Linked;
    forall u | u in s'.threads ensures FilePhaseOk(cfg, s', s'.threads[u]) {
      assert FilePhaseOk(cfg, s, s'.threads[u]);
      SamePhase(cfg, s, s', s'.threads[u]);
    }
    forall h | EntryFile(h) in s'.dir ensures Holds(cfg, s', h) {
      assert Holds(cfg, s, h);
    }
  }

  lemma SamePhase(cfg: Config, s: Proxy, s': Proxy, ph: Phase)
    requires s'.dir == s.dir && s'.data == s.data && s'.published == s.published
    requires FilePhaseOk(cfg, s, ph)
    ensures FilePhaseOk(cfg, s', ph)
  {
    hide LastOfHash;
    hide FileOf;
    hide SeenLast;
    hide Sealed;
  }

  lemma OpenFileIsOk(cfg: Config, s: Proxy, ph: Phase)
    requires FilesOk(cfg, s) && ph.Opening? && EntryFile(cfg.hash(ph.key)) in s.dir
    ensures FilePhaseOk(cfg, s, Reading(ph.l, ph.key, ph.now, s.dir[EntryFile(cfg.hash(ph.key))], [], |s.published|))
  {
    hide FileOf;
    hide Writable;
    var h := cfg.hash(ph.key);
    assert Holds(cfg, s, h);
    assert s.published[..|s.published|] == s.published;
    assert SeenLast(cfg, s.published, |s.published|, ph.key, LastOfHash(cfg, s.published, h).value);
  }

  /** A reader that reaches the end has read one complete entry. */
  lemma ReadIsOk(cfg: Config, s: Proxy, ph: Phase)
    requires FilesOk(cfg, s) && ph.Reading? && ReaderOk(cfg, s, ph) && |s.data[ph.ino].bytes| <= |ph.got|
    ensures FilePhaseOk(cfg, s, AfterRead(ph)) && !AfterRead(ph).Idle?
  {
    hide Encoding;
    hide Decoding;
    hide Fits;
    hide LastOfHash;
    var q :| SeenLast(cfg, s.published, ph.seen, ph.key, q) && s.data[ph.ino].bytes == FileOf(q);
    assert ph.got == FileOf(q);
    assert Writable(q) by { SeenIsPublished(cfg, s.published, ph.seen, ph.key, q); }
    DecodeOfEncode(EntryOf(q.key, q.v), []);
    assert Encoding(EntryOf(q.key, q.v)) + [] == ph.got;
  }

  lemma SeenIsPublished(cfg: Config, published: seq<PutRecord>, seen: nat, key: string, q: PutRecord)
    requires SeenLast(cfg, published, seen, key, q)
    ensures q in published && cfg.hash(q.key) == cfg.hash(key)
  {
  }

  lemma NoFiles(cfg: Config, s: Proxy, ph: Phase)
    requires !ph.Reading? && !ph.Filling? && !HoldsTemp(ph)
    ensures FilePhaseOk(cfg, s, ph)
  {
  }

  lemma PhaseIsOk(cfg: Config, s: Proxy, t: nat)
    requires FilesOk(cfg, s)
    ensures FilePhaseOk(cfg, s, PhaseOf(s, t))
  {
    hide LastOfHash;
    hide ReaderOk;
    hide FillerOk;
    hide WriterOk;
  }

  /** Steps that read a file. */
  lemma ReadStepKeepsFiles(cfg: Config, s: Proxy, t: nat, a: Action)
    requires FilesOk(cfg, s) && Enabled(cfg, s, t, a) && (a.OpenFile? || a.ReadSome? || a.ReadEnd?)
    ensures FilesOk(cfg, Apply(cfg, s, t, a))
  {
    hide FilesOk;
    hide FilePhaseOk;
    hide AfterRead;
    var ph, s' := PhaseOf(s, t), Apply(cfg, s, t, a);
    PhaseIsOk(cfg, s, t);
    assert s' == Goto(s, t, PhaseOf(s', t));
    if a.OpenFile? {
      if EntryFile(cfg.hash(ph.key)) in s.dir {
        OpenFileIsOk(cfg, s, ph);
      } else {
        NoFiles(cfg, s, PhaseOf(s', t));
      }
    } else if a.ReadSome? {
      ReadSomeIsOk(cfg, s, ph, a.n);
    } else {
      ReadEndIsOk(cfg, s, ph);
    }
    assert s'.threads == s.threads[t := PhaseOf(s', t)];
    SameFiles(cfg, s, s', t);
  }

  /** Steps that do not touch files. */
  predicate TouchesNothing(s: Proxy, t: nat, s': Proxy) {
    var ph := PhaseOf(s', t);
    && s'.dir == s.dir && s'.data == s.data && s'.published == s.published
    && s'.threads == s.threads[t := ph] && !ph.Reading? && !ph.Filling? && !HoldsTemp(ph)
  }

  lemma FoundTouchesNothing(s: Proxy, t: nat, l: Listener, key: string, now: Time, v: Stored, hasTarget: bool)
    ensures TouchesNothing(s, t, Found(s, t, l, key, now, v, hasTarget))
  {
    hide Etag;
  }

  lemma LookupTouchesNothing(cfg: Config, s: Proxy, t: nat, a: Action)
    requires Enabled(cfg, s, t, a) && (a.Begin? || a.Probe? || a.Fill?)
    ensures TouchesNothing(s, t, Apply(cfg, s, t, a))
  {
    hide Inserted;
    hide Found;
    var ph := PhaseOf(s, t);
    if a.Probe? && ph.key in s.memory {
      FoundTouchesNothing(s, t, ph.l, ph.key, ph.now, s.memory[ph.key], a.hasTarget);
    } else if a.Fill? {
      FoundTouchesNothing(s.(memory := a.memory), t, ph.l, ph.key, ph.now, ph.v, a.hasTarget);
    }
  }

  lemma EndTouchesNothing(cfg: Config, s: Proxy, t: nat, a: Action)
    requires Enabled(cfg, s, t, a) && (a.Insert? || a.DiskFault?)
    ensures TouchesNothing(s, t, Apply(cfg, s, t, a))
  {
    hide Inserted;
  }

  lemma OriginTouchesNothing(cfg: Config, s: Proxy, t: nat, a: Action)
    requires Enabled(cfg, s, t, a)
    requires a.NotModified? || a.Modified? || a.RevalidationFailed? || a.Head? || a.Store? || a.Abandon?
    ensures TouchesNothing(s, t, Apply(cfg, s, t, a))
  {
    hide StoredTtl;
    hide CaptureTtl;
    hide Captured;
    hide Writable;
  }

  lemma TouchesNothingMeans(s: Proxy, t: nat, s': Proxy)
    requires TouchesNothing(s, t, s')
    ensures s'.dir == s.dir && s'.data == s.data && s'.published == s.published
    ensures var ph := PhaseOf(s', t); s'.threads == s.threads[t := ph] && !ph.Reading? && !ph.Filling? && !HoldsTemp(ph)
  {
  }

  predicate Other(a: Action) {
    !a.OpenFile? && !a.ReadSome? && !a.ReadEnd? && !a.Evict? && !a.Open? && !a.Write? && !a.Rename? && !a.Restart?
  }

  lemma OtherTouchesNothing(cfg: Config, s: Proxy, t: nat, a: Action)
    requires Enabled(cfg, s, t, a) && Other(a)
    ensures TouchesNothing(s, t, Apply(cfg, s, t, a))
  {
    hide Enabled;
    hide Apply;
    hide TouchesNothing;
    match a {
      case NotModified(_) => OriginTouchesNothing(cfg, s, t, a);
      case Modified(_, _, _) => OriginTouchesNothing(cfg, s, t, a);
      case RevalidationFailed => OriginTouchesNothing(cfg, s, t, a);
      case Head(_, _) => OriginTouchesNothing(cfg, s, t, a);
      case Store(_, _) => OriginTouchesNothing(cfg, s, t, a);
      case Abandon => OriginTouchesNothing(cfg, s, t, a);
      case Insert(_) => EndTouchesNothing(cfg, s, t, a);
      case DiskFault => EndTouchesNothing(cfg, s, t, a);
      case _ => LookupTouchesNothing(cfg, s, t, a);
    }
  }

  lemma OtherStepKeepsFiles(cfg: Config, s: Proxy, t: nat, a: Action)
    requires FilesOk(cfg, s) && Enabled(cfg, s, t, a) && Other(a)
    ensures FilesOk(cfg, Apply(cfg, s, t, a))
  {
    hide *;
    OtherTouchesNothing(cfg, s, t, a);
    TouchesNothingMeans(s, t, Apply(cfg, s, t, a));
    NoFiles(cfg, s, PhaseOf(Apply(cfg, s, t, a), t));
    SameFiles(cfg, s, Apply(cfg, s, t, a), t);
  }

  // ---------- Names and inodes ----------

  /** A reader moves no file. */
  lemma ReadStep(cfg: Config, s: Proxy, t: nat, a: Action)
    requires Enabled(cfg, s, t, a) && (a.OpenFile? || a.ReadSome? || a.ReadEnd?)
    ensures Apply(cfg, s, t, a) == Goto(s, t, PhaseOf(Apply(cfg, s, t, a), t))
  {
    hide AfterRead;
  }

  /** Names and inodes stay in order through every step, shared temporary files or not. */
  lemma StepKeepsLinked(cfg: Config, s: Proxy, t: nat, a: Action)
    requires Linked(s.dir, s.data) && Enabled(cfg, s, t, a)
    ensures Linked(Apply(cfg, s, t, a).dir, Apply(cfg, s, t, a).data)
  {
    hide Enabled;
    hide Apply;
    hide WriteAt;
    hide FileOf;
    match a {
      case Evict(victim) => ApplyEvict(cfg, s, t, victim);
      case Open(ino, clock) => ApplyOpen(cfg, s, t, ino, clock);
      case Write(n, clock) => ApplyWrite(cfg, s, t, n, clock);
      case Rename => ApplyRename(cfg, s, t);
      case Restart => ApplyRestart(cfg, s, t);
      case OpenFile => ReadStep(cfg, s, t, a);
      case ReadSome(_) => ReadStep(cfg, s, t, a);
      case ReadEnd => ReadStep(cfg, s, t, a);
      case _ => OtherTouchesNothing(cfg, s, t, a);
    }
  }

  lemma {:induction false} RunKeepsLinked(cfg: Config, states: seq<Proxy>, turns: seq<Turn>, n: nat)
    requires ProxyMachine.Run(cfg, states, turns) && n <= |turns|
    ensures Linked(states[n].dir, states[n].data)
  {
    hide Apply;
    hide Enabled;
    if n > 0 {
      RunKeepsLinked(cfg, states, turns, n - 1);
      StepKeepsLinked(cfg, states[n - 1], turns[n - 1].thread, turns[n - 1].action);
    }
  }

  lemma ReadSomeIsOk(cfg: Config, s: Proxy, ph: Phase, n: nat)
    requires ph.Reading? && FilePhaseOk(cfg, s, ph) && ph.ino in s.data && 0 < n <= |s.data[ph.ino].bytes| - |ph.got|
    ensures FilePhaseOk(cfg, s, ph.(got := ph.got + s.data[ph.ino].bytes[|ph.got|..|ph.got| + n]))
  {
    hide LastOfHash;
    hide FileOf;
    hide SeenLast;
    hide Sealed;
  }

  lemma ReadEndIsOk(cfg: Config, s: Proxy, ph: Phase)
    requires FilesOk(cfg, s) && ph.Reading? && FilePhaseOk(cfg, s, ph)
    requires ph.ino in s.data ==> |s.data[ph.ino].bytes| <= |ph.got|
    ensures FilePhaseOk(cfg, s, AfterRead(ph)) && !AfterRead(ph).Idle?
  {
    hide FilesOk;
    hide AfterRead;
    assert ReaderOk(cfg, s, ph);
    ReadIsOk(cfg, s, ph);
  }

  // ---------- Steps of a put on its file ----------

  lemma EvictKeepsFiles(cfg: Config, s: Proxy, t: nat, victim: Option<Name>)
    requires FilesOk(cfg, s) && Enabled(cfg, s, t, Evict(victim))
    ensures FilesOk(cfg, Apply(cfg, s, t, Evict(victim)))
  {
    hide LastOfHash;
    hide FileOf;
    hide SeenLast;
    hide Writable;
    ApplyEvict(cfg, s, t, victim);
    hide Enabled;
    hide Apply;
    var s' := Apply(cfg, s, t, Evict(victim));
    forall u | u in s'.threads ensures FilePhaseOk(cfg, s', s'.threads[u]) {
      if u != t {
        assert FilePhaseOk(cfg, s, s.threads[u]);
      }
    }
    forall h | EntryFile(h) in s'.dir ensures Holds(cfg, s', h) {
      assert Holds(cfg, s, h);
    }
  }

  /** Nobody else holds this temporary file. */
  ghost predicate Alone(cfg: Config, s: Proxy, t: nat, h: nat) {
    forall u | u in s.threads && u != t && HoldsTemp(s.threads[u]) :: cfg.hash(s.threads[u].p.key) != h
  }

  /** Changing the inode of one temporary file is seen by nobody but its holder. */
  lemma TempChangeKeeps(cfg: Config, s: Proxy, t: nat, h: nat, ino: nat, file: File, ph: Phase)
    requires FilesOk(cfg, s) && Alone(cfg, s, t, h)
    requires TempFile(h) in s.dir && s.dir[TempFile(h)] == ino
    requires var s' := s.(data := s.data[ino := file]); FilePhaseOk(cfg, s', ph)
    ensures FilesOk(cfg, Goto(s.(data := s.data[ino := file]), t, ph))
  {
    hide LastOfHash;
    hide FileOf;
    hide SeenLast;
    hide Writable;
    var s' := s.(data := s.data[ino := file]);
    forall u | u in s.threads && u != t ensures FilePhaseOk(cfg, s', s.threads[u]) {
      assert FilePhaseOk(cfg, s, s.threads[u]);
    }
    forall h' | EntryFile(h') in s'.dir ensures Holds(cfg, s', h') {
      assert Holds(cfg, s, h');
    }
    SameFilesGoto(cfg, s', t, ph);
  }

  lemma SameFilesGoto(cfg: Config, s: Proxy, t: nat, ph: Phase)
    requires Linked(s.dir, s.data) && (forall h | EntryFile(h) in s.dir :: Holds(cfg, s, h))
    requires (forall u | u in s.threads && u != t :: FilePhaseOk(cfg, s, s.threads[u])) && FilePhaseOk(cfg, s, ph)
    requires forall p | p in s.published :: Writable(p)
    ensures FilesOk(cfg, Goto(s, t, ph))
  {
    hide LastOfHash;
    hide FileOf;
    hide Writable;
    hide SeenLast;
    hide Linked;
    var s' := Goto(s, t, ph);
    forall u | u in s'.threads ensures FilePhaseOk(cfg, s', s'.threads[u]) {
      SamePhase(cfg, s, s', s'.threads[u]);
    }
    forall h | EntryFile(h) in s'.dir ensures Holds(cfg, s', h) {
      assert Holds(cfg, s, h);
    }
  }

  /** A temporary file that was not there gets an inode of its own. */
  lemma NewTempKeeps(cfg: Config, s: Proxy, h: nat, ino: nat, file: File)
    requires FilesOk(cfg, s) && TempFile(h) !in s.dir && ino !in s.data
    ensures FilesOk(cfg, s.(dir := s.dir[TempFile(h) := ino], data := s.data[ino := file]))
  {
    hide LastOfHash;
    hide FileOf;
    hide SeenLast;
    hide Writable;
    var s' := s.(dir := s.dir[TempFile(h) := ino], data := s.data[ino := file]);
    forall u | u in s.threads ensures FilePhaseOk(cfg, s', s.threads[u]) {
      assert FilePhaseOk(cfg, s, s.threads[u]);
    }
    forall h' | EntryFile(h') in s'.dir ensures Holds(cfg, s', h') {
      assert Holds(cfg, s, h');
    }
  }

  /** A temporary file is created, or emptied. */
  lemma OpenedKeepsFiles(cfg: Config, s: Proxy, t: nat, p: PutRecord, reply: Option<Served>, ino: nat, clock: Time)
    requires FilesOk(cfg, s) && Alone(cfg, s, t, cfg.hash(p.key))
    requires var tmp := TempFile(cfg.hash(p.key)); if tmp in s.dir then ino == s.dir[tmp] else ino !in s.data
    ensures FilesOk(cfg, Goto(s, t, PutWriting(p, reply, ino, 0)).(
                           dir := s.dir[TempFile(cfg.hash(p.key)) := ino], data := s.data[ino := File(clock, [])]))
  {
    var ph', h := PutWriting(p, reply, ino, 0), cfg.hash(p.key);
    FileIsNotEmpty(p);
    hide FilesOk;
    hide FileOf;
    if TempFile(h) in s.dir {
      assert s.dir[TempFile(h) := ino] == s.dir;
      TempChangeKeeps(cfg, s, t, h, ino, File(clock, []), ph');
    } else {
      var made := s.(dir := s.dir[TempFile(h) := ino], data := s.data[ino := File(clock, [])]);
      NewTempKeeps(cfg, s, h, ino, File(clock, []));
      assert made.data[ino := File(clock, [])] == made.data;
      TempChangeKeeps(cfg, made, t, h, ino, File(clock, []), ph');
    }
  }

  lemma OpenKeepsFiles(cfg: Config, s: Proxy, t: nat, ino: nat, clock: Time)
    requires FilesOk(cfg, s) && Enabled(cfg, s, t, Open(ino, clock))
    requires Exclusive(cfg, Apply(cfg, s, t, Open(ino, clock)))
    ensures FilesOk(cfg, Apply(cfg, s, t, Open(ino, clock)))
  {
    hide Enabled;
    hide Apply;
    hide FilesOk;
    hide Exclusive;
    hide FileOf;
    ApplyOpen(cfg, s, t, ino, clock);
    HolderIsAlone(cfg, s, Apply(cfg, s, t, Open(ino, clock)), t);
    OpenedKeepsFiles(cfg, s, t, s.threads[t].p, s.threads[t].reply, ino, clock);
  }

  lemma HolderIsAlone(cfg: Config, s: Proxy, s': Proxy, t: nat)
    requires Exclusive(cfg, s') && t in s'.threads && HoldsTemp(s'.threads[t])
    requires s'.threads == s.threads[t := s'.threads[t]]
    ensures Alone(cfg, s, t, cfg.hash(s'.threads[t].p.key))
  {
    forall u | u in s.threads && u != t && HoldsTemp(s.threads[u])
      ensures cfg.hash(s.threads[u].p.key) != cfg.hash(s'.threads[t].p.key)
    {
      assert s'.threads[u] == s.threads[u];
    }
  }

  lemma FileIsNotEmpty(p: PutRecord)
    ensures |FileOf(p)| > 0
  {
    hide StrBytes;
    hide HeaderBytes;
    hide LE;
    assert |LE(ExpirySeconds(p.v.expiry), 8)| == 8;
  }

  /** Writing on where one has stopped. */
  lemma Resume(bytes: seq<byte>, off: nat, end: nat)
    requires off <= end <= |bytes|
    ensures WriteAt(bytes[..off], off, bytes[off..end]) == bytes[..end]
  {
    assert bytes[..off] + bytes[off..end] == bytes[..end];
  }

  lemma WriterIsOk(cfg: Config, s: Proxy, t: nat)
    requires FilesOk(cfg, s) && t in s.threads && HoldsTemp(s.threads[t])
    ensures WriterOk(cfg, s, s.threads[t])
  {
    hide FileOf;
    hide LastOfHash;
    hide Linked;
    assert FilePhaseOk(cfg, s, s.threads[t]);
  }

  /** A writer that has written up to `end`. */
  lemma WrittenKeepsFiles(cfg: Config, s: Proxy, t: nat, end: nat, clock: Time, ph': Phase)
    requires FilesOk(cfg, s) && Exclusive(cfg, s) && t in s.threads && s.threads[t].PutWriting?
    requires s.threads[t].off < end <= |FileOf(s.threads[t].p)|
    requires var ph := s.threads[t];
             ph' == if end < |FileOf(ph.p)| then ph.(off := end) else PutRenaming(ph.p, ph.reply, ph.ino)
    ensures var ph := s.threads[t]; var existing := if ph.ino in s.data then s.data[ph.ino].bytes else [];
            FilesOk(cfg, Goto(s, t, ph').(
              data := s.data[ph.ino := File(clock, WriteAt(existing, ph.off, FileOf(ph.p)[ph.off..end]))]))
  {
    hide FileOf;
    hide WriteAt;
    var ph, h := s.threads[t], cfg.hash(s.threads[t].p.key);
    assert s.threads == s.threads[t := s.threads[t]];
    HolderIsAlone(cfg, s, s, t);
    hide Exclusive;
    WriterIsOk(cfg, s, t);
    hide FilesOk;
    var bytes := FileOf(ph.p);
    Resume(bytes, ph.off, end);
    assert bytes[..|bytes|] == bytes;
    TempChangeKeeps(cfg, s, t, h, ph.ino, File(clock, bytes[..end]), ph');
  }

  lemma WriteKeepsFiles(cfg: Config, s: Proxy, t: nat, n: nat, clock: Time)
    requires FilesOk(cfg, s) && Exclusive(cfg, s) && Enabled(cfg, s, t, Write(n, clock))
    ensures FilesOk(cfg, Apply(cfg, s, t, Write(n, clock)))
  {
    hide *;
    ApplyWrite(cfg, s, t, n, clock);
    var ph := s.threads[t];
    var end := ph.off + n;
    WrittenKeepsFiles(cfg, s, t, end, clock,
                      if end < |FileOf(ph.p)| then ph.(off := end) else PutRenaming(ph.p, ph.reply, ph.ino));
  }

  /** A file that is complete is given its name. */
  lemma RenamedKeepsFiles(cfg: Config, s: Proxy, t: nat, s': Proxy)
    requires FilesOk(cfg, s) && Exclusive(cfg, s) && t in s.threads && s.threads[t].PutRenaming? && Writable(s.threads[t].p)
    requires var ph := s.threads[t]; var h := cfg.hash(ph.p.key);
             s' == Goto(s, t, PutInserting(ph.p, ph.reply)).(
               dir := (s.dir - {TempFile(h)})[EntryFile(h) := ph.ino], published := s.published + [ph.p])
    requires WriterOk(cfg, s, s.threads[t])
    ensures FilesOk(cfg, s')
  {
    hide FileOf;
    hide Writable;
    var ph := s.threads[t];
    var h, p := cfg.hash(ph.p.key), ph.p;
    assert s.threads == s.threads[t := s.threads[t]];
    HolderIsAlone(cfg, s, s, t);
    hide Exclusive;
    RenamedHolds(cfg, s, s', h, p, ph.ino);
    hide LastOfHash;
    hide Holds;
    forall u | u in s'.threads ensures FilePhaseOk(cfg, s', s'.threads[u]) {
      if u == t {
        NoFiles(cfg, s', s'.threads[t]);
      } else {
        assert FilePhaseOk(cfg, s, s.threads[u]);
        RenamePhase(cfg, s, s', h, p, ph.ino, s.threads[u]);
      }
    }
    hide FilePhaseOk;
    RenamedIsLinked(s.dir, s.data, h, ph.ino);
  }

  lemma RenamedIsLinked(dir: map<Name, nat>, data: map<nat, File>, h: nat, ino: nat)
    requires Linked(dir, data) && TempFile(h) in dir && dir[TempFile(h)] == ino
    ensures Linked((dir - {TempFile(h)})[EntryFile(h) := ino], data)
  {
  }

  lemma RenamedHolds(cfg: Config, s: Proxy, s': Proxy, h: nat, p: PutRecord, ino: nat)
    requires forall h | EntryFile(h) in s.dir :: Holds(cfg, s, h)
    requires s'.dir == (s.dir - {TempFile(h)})[EntryFile(h) := ino]
    requires s'.data == s.data && s'.published == s.published + [p]
    requires cfg.hash(p.key) == h && ino in s.data && s.data[ino].bytes == FileOf(p)
    ensures forall h | EntryFile(h) in s'.dir :: Holds(cfg, s', h)
  {
    hide FileOf;
    hide LastOfHash;
    forall h' | EntryFile(h') in s'.dir ensures Holds(cfg, s', h') {
      LastOfHashSnoc(cfg, s.published, p, h');
      if h' != h {
        assert Holds(cfg, s, h');
      }
    }
  }

  lemma RenameKeepsFiles(cfg: Config, s: Proxy, t: nat)
    requires FilesOk(cfg, s) && Exclusive(cfg, s) && Enabled(cfg, s, t, Rename) && Writable(PhaseOf(s, t).p)
    ensures FilesOk(cfg, Apply(cfg, s, t, Rename))
  {
    hide Enabled;
    hide Apply;
    hide FilesOk;
    hide Exclusive;
    hide FileOf;
    ApplyRename(cfg, s, t);
    WriterIsOk(cfg, s, t);
    RenamedKeepsFiles(cfg, s, t, Apply(cfg, s, t, Rename));
  }

  /** Readers and other writers do not notice a file being published. */
  lemma RenamePhase(cfg: Config, s: Proxy, s': Proxy, h: nat, p: PutRecord, ino: nat, ph: Phase)
    requires FilePhaseOk(cfg, s, ph) && (HoldsTemp(ph) ==> cfg.hash(ph.p.key) != h)
    requires s'.dir == (s.dir - {TempFile(h)})[EntryFile(h) := ino]
    requires s'.data == s.data && s'.published == s.published + [p]
    ensures FilePhaseOk(cfg, s', ph)
  {
    hide FileOf;
    hide LastOfHash;
    if ph.Reading? {
      var q :| SeenLast(cfg, s.published, ph.seen, ph.key, q) && s.data[ph.ino].bytes == FileOf(q);
      SeenGrows(cfg, s.published, s'.published, ph.seen, ph.key, q);
    } else if ph.Filling? {
      var q :| SeenLast(cfg, s.published, ph.seen, ph.key, q) && q.key == ph.key
               && ph.v == Stored(DiskExpiry(q.v.expiry), q.v.response);
      SeenGrows(cfg, s.published, s'.published, ph.seen, ph.key, q);
    }
  }

  lemma SeenGrows(cfg: Config, published: seq<PutRecord>, published': seq<PutRecord>, seen: nat, key: string, q: PutRecord)
    requires SeenLast(cfg, published, seen, key, q) && published <= published'
    ensures SeenLast(cfg, published', seen, key, q)
  {
    assert published'[..seen] == published[..seen];
  }

  lemma RestartKeepsFiles(cfg: Config, s: Proxy, t: nat)
    requires FilesOk(cfg, s)
    ensures FilesOk(cfg, Apply(cfg, s, t, Action.Restart))
  {
    hide LastOfHash;
    hide FileOf;
    hide Writable;
    forall h | EntryFile(h) in s.dir ensures Holds(cfg, Apply(cfg, s, t, Action.Restart), h) {
      assert Holds(cfg, s, h);
    }
  }

  /** Every step of a run without shared temporary files keeps the files in order. */
  lemma StepKeepsFiles(cfg: Config, s: Proxy, t: nat, a: Action)
    requires FilesOk(cfg, s) && Enabled(cfg, s, t, a)
    requires Exclusive(cfg, s) && Exclusive(cfg, Apply(cfg, s, t, a))
    requires a.Rename? ==> Writable(PhaseOf(s, t).p)
    ensures FilesOk(cfg, Apply(cfg, s, t, a))
  {
    hide FilesOk;
    hide Exclusive;
    hide Apply;
    match a {
      case Evict(victim) => EvictKeepsFiles(cfg, s, t, victim);
      case Open(ino, clock) => OpenKeepsFiles(cfg, s, t, ino, clock);
      case Write(n, clock) => WriteKeepsFiles(cfg, s, t, n, clock);
      case Rename => RenameKeepsFiles(cfg, s, t);
      case Restart => RestartKeepsFiles(cfg, s, t);
      case OpenFile => ReadStepKeepsFiles(cfg, s, t, a);
      case ReadSome(_) => ReadStepKeepsFiles(cfg, s, t, a);
      case ReadEnd => ReadStepKeepsFiles(cfg, s, t, a);
      case _ => OtherStepKeepsFiles(cfg, s, t, a);
    }
  }

  lemma InitFiles(cfg: Config)
    ensures FilesOk(cfg, INIT)
  {
  }

  /** At any moment the file of a key reads as the last published put of its hash, or nothing. */
  lemma ReadsAsLast(cfg: Config, s: Proxy, key: string)
    requires FilesOk(cfg, s)
    ensures !DiskPanics(cfg.hash, View(s), key)
    ensures var found := DiskGet(cfg.hash, View(s), key); var last := LastOfHash(cfg, s.published, cfg.hash(key));
            found.Some? ==> last.Some? && last.value.key == key
                            && found == Some(Stored(DiskExpiry(last.value.v.expiry), last.value.v.response))
  {
    hide Encoding;
    hide Decoding;
    hide Fits;
    hide LastOfHash;
    var h := cfg.hash(key);
    if EntryFile(h) in View(s) {
      assert Holds(cfg, s, h);
      var q := LastOfHash(cfg, s.published, h).value;
      assert Writable(q);
      DecodeOfEncode(EntryOf(q.key, q.v), []);
      assert Encoding(EntryOf(q.key, q.v)) + [] == View(s)[EntryFile(h)].bytes;
    }
  }
}
