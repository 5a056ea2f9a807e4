/**
 What the interleaved machine keeps true of its files while no two puts of one hash write at the same
 time - though one may empty a temporary file that another has just written, or go on writing to it
 after the other has published it: every inode holds the beginning of one file that some put wrote.
 */
module FilePrefixes {
  import opened Base
  import opened Codec
  import opened CacheStore
  import opened ProxyMachine
  import opened ProxyFiles

  ghost predicate PrefixOfPut(puts: seq<PutRecord>, bytes: seq<byte>) {
    exists p :: p in puts && bytes <= FileOf(p)
  }

  /** A writer's inode holds what it has written so far, and has only names of its hash. */
  ghost predicate WriterStopped(cfg: Config, s: Proxy, ph: Phase)
    requires ph.PutWriting?
  {
    && ph.p in s.puts && ph.ino in s.data && ph.off < |FileOf(ph.p)|
    && s.data[ph.ino].bytes == FileOf(ph.p)[..ph.off]
    && forall n | n in s.dir && s.dir[n] == ph.ino :: n.hash == cfg.hash(ph.p.key)
  }

  /** A reader's inode is emptied by nobody, so the reader has read the beginning of it. */
  ghost predicate ReaderBehind(s: Proxy, ph: Phase)
    requires ph.Reading?
  {
    ph.ino in s.data && Sealed(s.dir, ph.ino) && ph.got <= s.data[ph.ino].bytes
  }

  ghost predicate HandleOk(cfg: Config, s: Proxy, ph: Phase) {
    if ph.Reading? then ReaderBehind(s, ph) else if ph.PutWriting? then WriterStopped(cfg, s, ph) else true
  }

  /** No two writers write to one inode. */
  ghost predicate OwnInodes(s: Proxy) {
    forall t, u | t in s.threads && u in s.threads && t != u && s.threads[t].PutWriting? && s.threads[u].PutWriting? ::
      s.threads[t].ino != s.threads[u].ino
  }

  ghost predicate PrefixesOk(cfg: Config, s: Proxy) {
    && Linked(s.dir, s.data)
    && (forall i | i in s.data :: PrefixOfPut(s.puts, s.data[i].bytes))
    && (forall t | t in s.threads :: HandleOk(cfg, s, s.threads[t]))
    && OwnInodes(s)
  }

  // ---------- What a step leaves alone ----------

  /** Every name is one there was, or a temporary file published, or on an inode that is new. */
  ghost predicate NamesKept(s: Proxy, s': Proxy) {
    forall n | n in s'.dir ::
      || (n in s.dir && s.dir[n] == s'.dir[n])
      || (n.EntryFile? && TempFile(n.hash) in s.dir && s.dir[TempFile(n.hash)] == s'.dir[n])
      || s'.dir[n] !in s.data
  }

  /** The inode of an open file is as it was; under a reader it may have grown. */
  ghost predicate InodeKept(s: Proxy, s': Proxy, ph: Phase) {
    && ((ph.Reading? || ph.PutWriting?) && ph.ino in s.data ==> ph.ino in s'.data)
    && (ph.Reading? && ph.ino in s.data ==> s.data[ph.ino].bytes <= s'.data[ph.ino].bytes)
    && (ph.PutWriting? && ph.ino in s.data ==> s.data[ph.ino].bytes == s'.data[ph.ino].bytes)
  }

  lemma HandleKept(cfg: Config, s: Proxy, s': Proxy, ph: Phase)
    requires HandleOk(cfg, s, ph) && s.puts <= s'.puts && NamesKept(s, s') && InodeKept(s, s', ph)
    ensures HandleOk(cfg, s', ph)
  {
    hide FileOf;
  }

  lemma PrefixGrows(puts: seq<PutRecord>, puts': seq<PutRecord>, bytes: seq<byte>)
    requires PrefixOfPut(puts, bytes) && puts <= puts'
    ensures PrefixOfPut(puts', bytes)
  {
    hide FileOf;
  }

  lemma MovedInodes(s: Proxy, t: nat, s': Proxy)
    requires OwnInodes(s) && s'.threads == s.threads[t := PhaseOf(s', t)]
    requires PhaseOf(s', t).PutWriting? ==>
               forall u | u in s.threads && u != t && s.threads[u].PutWriting? :: s.threads[u].ino != PhaseOf(s', t).ino
    ensures OwnInodes(s')
  {
  }

  lemma MovedHandles(cfg: Config, s: Proxy, t: nat, s': Proxy)
    requires (forall u | u in s.threads :: HandleOk(cfg, s, s.threads[u])) && s.puts <= s'.puts && NamesKept(s, s')
    requires s'.threads == s.threads[t := PhaseOf(s', t)] && HandleOk(cfg, s', PhaseOf(s', t))
    requires forall u | u in s.threads && u != t :: InodeKept(s, s', s.threads[u])
    ensures forall u | u in s'.threads :: HandleOk(cfg, s', s'.threads[u])
  {
    hide NamesKept;
    hide InodeKept;
    forall u | u in s'.threads ensures HandleOk(cfg, s', s'.threads[u]) {
      if u != t {
        HandleKept(cfg, s, s', s.threads[u]);
      }
    }
  }

  lemma MovedData(s: Proxy, s': Proxy)
    requires (forall i | i in s.data :: PrefixOfPut(s.puts, s.data[i].bytes)) && s.puts <= s'.puts
    requires forall i | i in s'.data :: (i in s.data && s'.data[i] == s.data[i]) || PrefixOfPut(s'.puts, s'.data[i].bytes)
    ensures forall i | i in s'.data :: PrefixOfPut(s'.puts, s'.data[i].bytes)
  {
    hide PrefixOfPut;
    forall i | i in s'.data ensures PrefixOfPut(s'.puts, s'.data[i].bytes) {
      if i in s.data && s'.data[i] == s.data[i] {
        PrefixGrows(s.puts, s'.puts, s.data[i].bytes);
      }
    }
  }

  /** One thread has moved; everybody else's files are as they were. */
  lemma Assemble(cfg: Config, s: Proxy, t: nat, s': Proxy)
    requires PrefixesOk(cfg, s) && Linked(s'.dir, s'.data) && s.puts <= s'.puts && NamesKept(s, s')
    requires s'.threads == s.threads[t := PhaseOf(s', t)] && HandleOk(cfg, s', PhaseOf(s', t))
    requires forall u | u in s.threads && u != t :: InodeKept(s, s', s.threads[u])
    requires forall i | i in s'.data :: (i in s.data && s'.data[i] == s.data[i]) || PrefixOfPut(s'.puts, s'.data[i].bytes)
    requires PhaseOf(s', t).PutWriting? ==>
               forall u | u in s.threads && u != t && s.threads[u].PutWriting? :: s.threads[u].ino != PhaseOf(s', t).ino
    ensures PrefixesOk(cfg, s')
  {
    hide Linked;
    hide NamesKept;
    hide InodeKept;
    hide HandleOk;
    hide OwnInodes;
    hide PrefixOfPut;
    hide PhaseOf;
    MovedInodes(s, t, s');
    MovedHandles(cfg, s, t, s');
    MovedData(s, s');
  }

  lemma HandleIsOk(cfg: Config, s: Proxy, t: nat)
    requires PrefixesOk(cfg, s)
    ensures HandleOk(cfg, s, PhaseOf(s, t))
    ensures Linked(s.dir, s.data)
  {
    hide ReaderBehind;
    hide WriterStopped;
  }

  lemma SameData(s: Proxy, s': Proxy)
    requires s'.data == s.data
    ensures forall u | u in s.threads :: InodeKept(s, s', s.threads[u])
    ensures forall i | i in s'.data :: i in s.data && s'.data[i] == s.data[i]
  {
  }

  lemma SameNames(s: Proxy, s': Proxy)
    requires s'.dir == s.dir
    ensures NamesKept(s, s')
  {
  }

  // ---------- Each step ----------

  lemma QuietStepKeeps(cfg: Config, s: Proxy, t: nat, a: Action)
    requires PrefixesOk(cfg, s) && Enabled(cfg, s, t, a) && Other(a)
    ensures PrefixesOk(cfg, Apply(cfg, s, t, a))
  {
    hide *;
    var s' := Apply(cfg, s, t, a);
    HandleIsOk(cfg, s, t);
    OtherTouchesNothing(cfg, s, t, a);
    TouchesNothingMeans(s, t, s');
    HistoryStep(cfg, s, t, a);
    NoTemp(PhaseOf(s', t));
    NoHandle(cfg, s', PhaseOf(s', t));
    SameNames(s, s');
    SameData(s, s');
    Assemble(cfg, s, t, s');
  }

  lemma NoTemp(ph: Phase)
    requires !HoldsTemp(ph)
    ensures !ph.PutWriting?
  {
  }

  lemma NoHandle(cfg: Config, s: Proxy, ph: Phase)
    requires !ph.Reading? && !ph.PutWriting?
    ensures HandleOk(cfg, s, ph)
  {
  }

  lemma OpenFileHandle(cfg: Config, s: Proxy, name: Name, ph: Phase)
    requires PrefixesOk(cfg, s) && name.EntryFile? && name in s.dir
    requires ph.Reading? && ph.ino == s.dir[name] && ph.got == []
    ensures HandleOk(cfg, s, ph)
  {
    hide FileOf;
    hide PrefixOfPut;
    hide HandleOk;
    assert ReaderBehind(s, ph);
    ReaderHandle(cfg, s, ph);
  }

  lemma ReaderHandle(cfg: Config, s: Proxy, ph: Phase)
    requires ph.Reading?
    ensures HandleOk(cfg, s, ph) <==> ReaderBehind(s, ph)
  {
  }

  lemma ReadSomeHandle(cfg: Config, s: Proxy, ph: Phase, n: nat)
    requires ph.Reading? && HandleOk(cfg, s, ph) && ph.ino in s.data && 0 < n <= |s.data[ph.ino].bytes| - |ph.got|
    ensures HandleOk(cfg, s, ph.(got := ph.got + s.data[ph.ino].bytes[|ph.got|..|ph.got| + n]))
  {
  }

  lemma AfterReadHandle(cfg: Config, s: Proxy, ph: Phase)
    requires ph.Reading?
    ensures HandleOk(cfg, s, AfterRead(ph)) && !AfterRead(ph).PutWriting?
  {
    hide Decoding;
  }

  lemma ReadStepHandle(cfg: Config, s: Proxy, t: nat, a: Action)
    requires PrefixesOk(cfg, s) && Enabled(cfg, s, t, a) && (a.OpenFile? || a.ReadSome? || a.ReadEnd?)
    ensures HandleOk(cfg, s, PhaseOf(Apply(cfg, s, t, a), t)) && !PhaseOf(Apply(cfg, s, t, a), t).PutWriting?
  {
    HandleIsOk(cfg, s, t);
    hide PrefixesOk;
    hide HandleOk;
    hide AfterRead;
    var ph, ph' := PhaseOf(s, t), PhaseOf(Apply(cfg, s, t, a), t);
    if a.OpenFile? {
      var name := EntryFile(cfg.hash(ph.key));
      if name in s.dir {
        OpenFileHandle(cfg, s, name, ph');
      } else {
        NoHandle(cfg, s, ph');
      }
    } else if a.ReadSome? {
      ReadSomeHandle(cfg, s, ph, a.n);
    } else {
      AfterReadHandle(cfg, s, ph);
    }
  }

  lemma ReadStepKeeps(cfg: Config, s: Proxy, t: nat, a: Action)
    requires PrefixesOk(cfg, s) && Enabled(cfg, s, t, a) && (a.OpenFile? || a.ReadSome? || a.ReadEnd?)
    ensures PrefixesOk(cfg, Apply(cfg, s, t, a))
  {
    hide *;
    var s' := Apply(cfg, s, t, a);
    HandleIsOk(cfg, s, t);
    ReadStepHandle(cfg, s, t, a);
    ReadStep(cfg, s, t, a);
    GotoFields(s, t, PhaseOf(s', t));
    SameNames(s, s');
    SameData(s, s');
    HandleKept(cfg, s, s', PhaseOf(s', t)) by { SameInode(s, s', PhaseOf(s', t)); }
    Assemble(cfg, s, t, s');
  }

  lemma SameInode(s: Proxy, s': Proxy, ph: Phase)
    requires s'.data == s.data
    ensures InodeKept(s, s', ph)
  {
  }

  lemma EvictKeeps(cfg: Config, s: Proxy, t: nat, victim: Option<Name>)
    requires PrefixesOk(cfg, s) && Enabled(cfg, s, t, Evict(victim))
    ensures PrefixesOk(cfg, Apply(cfg, s, t, Evict(victim)))
  {
    hide *;
    var s' := Apply(cfg, s, t, Evict(victim));
    HandleIsOk(cfg, s, t);
    StepKeepsLinked(cfg, s, t, Evict(victim));
    ApplyEvict(cfg, s, t, victim);
    GotoFields(s, t, PutOpening(s.threads[t].p, s.threads[t].reply));
    FewerNames(s, s');
    SameData(s, s');
    NoHandle(cfg, s', PutOpening(s.threads[t].p, s.threads[t].reply));
    MovedPhase(s, t, s', PutOpening(s.threads[t].p, s.threads[t].reply));
    Assemble(cfg, s, t, s');
  }

  lemma FewerNames(s: Proxy, s': Proxy)
    requires forall n | n in s'.dir :: n in s.dir && s'.dir[n] == s.dir[n]
    ensures NamesKept(s, s')
  {
  }

  /** A temporary file is created or emptied: nobody else reads it, and nobody of its hash writes to it. */
  lemma OpenLeavesOthers(cfg: Config, s: Proxy, t: nat, p: PutRecord, ino: nat, file: File, s': Proxy, u: nat)
    requires PrefixesOk(cfg, s) && u in s.threads && u != t
    requires var tmp := TempFile(cfg.hash(p.key)); if tmp in s.dir then ino == s.dir[tmp] else ino !in s.data
    requires s.threads[u].PutWriting? ==> cfg.hash(s.threads[u].p.key) != cfg.hash(p.key)
    requires s'.data == s.data[ino := file]
    ensures InodeKept(s, s', s.threads[u])
    ensures s.threads[u].PutWriting? ==> s.threads[u].ino != ino
  {
    hide FileOf;
    hide Linked;
    assert HandleOk(cfg, s, s.threads[u]);
  }

  lemma OpenedHandle(cfg: Config, s: Proxy, t: nat, p: PutRecord, reply: Option<Served>, ino: nat, clock: Time, s': Proxy)
    requires Linked(s'.dir, s'.data) && p in s'.puts
    requires TempFile(cfg.hash(p.key)) in s'.dir && s'.dir[TempFile(cfg.hash(p.key))] == ino
    requires ino in s'.data && s'.data[ino].bytes == []
    ensures HandleOk(cfg, s', PutWriting(p, reply, ino, 0)) && PrefixOfPut(s'.puts, [])
  {
    FileIsNotEmpty(p);
    hide FileOf;
    assert FileOf(p)[..0] == [];
    assert [] <= FileOf(p);
  }

  lemma OpenNames(cfg: Config, s: Proxy, s': Proxy, tmp: Name, ino: nat)
    requires if tmp in s.dir then ino == s.dir[tmp] else ino !in s.data
    requires s'.dir == s.dir[tmp := ino]
    ensures NamesKept(s, s')
  {
  }

  lemma SoleMeans(cfg: Config, s: Proxy, s': Proxy, t: nat, u: nat, ph: Phase)
    requires SoleWriter(cfg, s') && s'.threads == s.threads[t := ph] && ph.PutWriting? && u in s.threads && u != t
    ensures s.threads[u].PutWriting? ==> cfg.hash(s.threads[u].p.key) != cfg.hash(ph.p.key)
  {
    assert s'.threads[u] == s.threads[u] && s'.threads[t] == ph;
  }

  lemma OpenKeeps(cfg: Config, s: Proxy, t: nat, ino: nat, clock: Time)
    requires PrefixesOk(cfg, s) && Enabled(cfg, s, t, Open(ino, clock))
    requires t in s.threads && s.threads[t].PutOpening? && s.threads[t].p in s.puts
    requires SoleWriter(cfg, Apply(cfg, s, t, Open(ino, clock)))
    ensures PrefixesOk(cfg, Apply(cfg, s, t, Open(ino, clock)))
  {
    hide *;
    var p, reply := s.threads[t].p, s.threads[t].reply;
    ApplyOpen(cfg, s, t, ino, clock);
    var s' := Apply(cfg, s, t, Open(ino, clock));
    HandleIsOk(cfg, s, t);
    StepKeepsLinked(cfg, s, t, Open(ino, clock));
    var ph, file := PutWriting(p, reply, ino, 0), File(clock, []);
    GotoFields(s, t, ph);
    MovedPhase(s, t, s', ph);
    OpenedHandle(cfg, s, t, p, reply, ino, clock, s');
    forall u | u in s.threads && u != t
      ensures InodeKept(s, s', s.threads[u])
      ensures s.threads[u].PutWriting? ==> s.threads[u].ino != ino
    {
      SoleMeans(cfg, s, s', t, u, ph);
      OpenLeavesOthers(cfg, s, t, p, ino, file, s', u);
    }
    OpenNames(cfg, s, s', TempFile(cfg.hash(p.key)), ino);
    Assemble(cfg, s, t, s');
  }

  /** A writer goes on: its own inode grows, and nobody else writes to that. */
  lemma WriteLeavesOthers(cfg: Config, s: Proxy, t: nat, ino: nat, file: File, s': Proxy, u: nat)
    requires PrefixesOk(cfg, s) && u in s.threads && t in s.threads && u != t
    requires s.threads[t].PutWriting? && s.threads[t].ino == ino && ino in s.data && s.data[ino].bytes <= file.bytes
    requires s'.data == s.data[ino := file]
    ensures InodeKept(s, s', s.threads[u])
    ensures s.threads[u].PutWriting? ==> s.threads[u].ino != ino
  {
    hide FileOf;
    hide Linked;
    hide PrefixOfPut;
    hide HandleOk;
  }

  /** What a write makes of its inode. */
  lemma WrittenData(cfg: Config, s: Proxy, t: nat, n: nat, clock: Time, s': Proxy)
    requires PrefixesOk(cfg, s) && Enabled(cfg, s, t, Write(n, clock)) && s' == Apply(cfg, s, t, Write(n, clock))
    ensures t in s.threads && s.threads[t].PutWriting? && 0 < n <= |FileOf(s.threads[t].p)| - s.threads[t].off
    ensures var ph := s.threads[t]; var end := ph.off + n;
            && WriterStopped(cfg, s, ph)
            && s'.data == s.data[ph.ino := File(clock, FileOf(ph.p)[..end])] && s'.dir == s.dir && s'.puts == s.puts
            && s'.threads == s.threads[t := if end < |FileOf(ph.p)| then ph.(off := end) else PutRenaming(ph.p, ph.reply, ph.ino)]
  {
    HandleIsOk(cfg, s, t);
    ApplyWrite(cfg, s, t, n, clock);
    hide PrefixesOk;
    hide Enabled;
    hide Apply;
    hide FileOf;
    hide WriteAt;
    var ph := s.threads[t];
    Resume(FileOf(ph.p), ph.off, ph.off + n);
  }

  lemma WriteKeeps(cfg: Config, s: Proxy, t: nat, n: nat, clock: Time)
    requires PrefixesOk(cfg, s) && Enabled(cfg, s, t, Write(n, clock))
    ensures PrefixesOk(cfg, Apply(cfg, s, t, Write(n, clock)))
  {
    hide *;
    var s' := Apply(cfg, s, t, Write(n, clock));
    HandleIsOk(cfg, s, t);
    StepKeepsLinked(cfg, s, t, Write(n, clock));
    WrittenData(cfg, s, t, n, clock, s');
    var ph := s.threads[t];
    var bytes, end := FileOf(ph.p), ph.off + n;
    var ph' := if end < |bytes| then ph.(off := end) else PutRenaming(ph.p, ph.reply, ph.ino);
    MovedPhase(s, t, s', ph');
    WriterMeans(cfg, s, ph);
    forall u | u in s.threads && u != t
      ensures InodeKept(s, s', s.threads[u])
      ensures s.threads[u].PutWriting? ==> s.threads[u].ino != ph.ino
    {
      WriteLeavesOthers(cfg, s, t, ph.ino, File(clock, bytes[..end]), s', u);
    }
    SameNames(s, s');
    WrittenHandle(cfg, s, s', ph, ph', end);
    Assemble(cfg, s, t, s');
  }

  lemma WriterMeans(cfg: Config, s: Proxy, ph: Phase)
    requires ph.PutWriting? && WriterStopped(cfg, s, ph)
    ensures ph.p in s.puts && ph.ino in s.data
    ensures forall end | ph.off <= end <= |FileOf(ph.p)| :: s.data[ph.ino].bytes <= FileOf(ph.p)[..end]
    ensures forall end | ph.off <= end <= |FileOf(ph.p)| :: PrefixOfPut(s.puts, FileOf(ph.p)[..end])
  {
    hide FileOf;
  }

  lemma WrittenHandle(cfg: Config, s: Proxy, s': Proxy, ph: Phase, ph': Phase, end: nat)
    requires ph.PutWriting? && WriterStopped(cfg, s, ph) && ph.off <= end <= |FileOf(ph.p)|
    requires ph' == if end < |FileOf(ph.p)| then ph.(off := end) else PutRenaming(ph.p, ph.reply, ph.ino)
    requires s'.dir == s.dir && s'.puts == s.puts && ph.ino in s'.data && s'.data[ph.ino].bytes == FileOf(ph.p)[..end]
    ensures HandleOk(cfg, s', ph')
  {
    hide FileOf;
  }

  lemma RenameNames(cfg: Config, s: Proxy, t: nat)
    requires Enabled(cfg, s, t, Rename)
    ensures NamesKept(s, Apply(cfg, s, t, Rename)) && Apply(cfg, s, t, Rename).data == s.data
    ensures Apply(cfg, s, t, Rename).puts == s.puts && t in s.threads && s.threads[t].PutRenaming?
    ensures Apply(cfg, s, t, Rename).threads == s.threads[t := PutInserting(s.threads[t].p, s.threads[t].reply)]
  {
    ApplyRename(cfg, s, t);
    hide Enabled;
    hide Apply;
  }

  lemma RenameKeeps(cfg: Config, s: Proxy, t: nat)
    requires PrefixesOk(cfg, s) && Enabled(cfg, s, t, Rename)
    ensures PrefixesOk(cfg, Apply(cfg, s, t, Rename))
  {
    hide *;
    var s' := Apply(cfg, s, t, Rename);
    HandleIsOk(cfg, s, t);
    StepKeepsLinked(cfg, s, t, Rename);
    RenameNames(cfg, s, t);
    MovedPhase(s, t, s', PutInserting(s.threads[t].p, s.threads[t].reply));
    NoHandle(cfg, s', PhaseOf(s', t));
    SameData(s, s');
    Assemble(cfg, s, t, s');
  }

  lemma RestartKeeps(cfg: Config, s: Proxy, t: nat)
    requires PrefixesOk(cfg, s)
    ensures PrefixesOk(cfg, Apply(cfg, s, t, Action.Restart))
  {
    ApplyRestart(cfg, s, t);
    hide Apply;
    hide FileOf;
    hide Linked;
  }

  /** Every step of a run in which writers of one hash do not meet leaves only beginnings of files. */
  lemma StepKeepsPrefixes(cfg: Config, s: Proxy, t: nat, a: Action)
    requires PrefixesOk(cfg, s) && Enabled(cfg, s, t, a) && SoleWriter(cfg, Apply(cfg, s, t, a))
    requires a.Open? ==> t in s.threads && s.threads[t].PutOpening? && s.threads[t].p in s.puts
    ensures PrefixesOk(cfg, Apply(cfg, s, t, a))
  {
    hide *;
    match a {
      case Evict(victim) => EvictKeeps(cfg, s, t, victim);
      case Open(ino, clock) => OpenKeeps(cfg, s, t, ino, clock);
      case Write(n, clock) => WriteKeeps(cfg, s, t, n, clock);
      case Rename => RenameKeeps(cfg, s, t);
      case Restart => RestartKeeps(cfg, s, t);
      case OpenFile => ReadStepKeeps(cfg, s, t, a);
      case ReadSome(_) => ReadStepKeeps(cfg, s, t, a);
      case ReadEnd => ReadStepKeeps(cfg, s, t, a);
      case _ =>
        IsOther(a);
        QuietStepKeeps(cfg, s, t, a);
    }
  }

  lemma IsOther(a: Action)
    ensures Other(a) || a.OpenFile? || a.ReadSome? || a.ReadEnd? || a.Evict? || a.Open? || a.Write? || a.Rename? || a.Restart?
  {
  }

  lemma InitPrefixes(cfg: Config)
    ensures PrefixesOk(cfg, INIT)
  {
  }

  // ---------- What a reader gets ----------

  /** The beginning of a file decodes to its entry if it is all of it, and to nothing otherwise. */
  lemma PrefixDecodes(p: PutRecord, bytes: seq<byte>)
    requires Writable(p) && bytes <= FileOf(p)
    ensures Decoding(bytes) == if bytes == FileOf(p) then Complete(Entry(p.key, DiskExpiry(p.v.expiry), p.v.response), [])
                               else Truncated
  {
    var e := EntryOf(p.key, p.v);
    hide Encoding;
    hide Decoding;
    hide Fits;
    if bytes == FileOf(p) {
      DecodeOfEncode(e, []);
      assert Encoding(e) + [] == bytes;
    } else {
      assert bytes == Encoding(e)[..|bytes|];
      PrefixFree(e, |bytes|);
    }
  }

  /** What a reader has read is the beginning of a file some put wrote. */
  lemma GotIsPrefix(cfg: Config, s: Proxy, t: nat)
    requires PrefixesOk(cfg, s) && t in s.threads && s.threads[t].Reading?
    ensures PrefixOfPut(s.puts, s.threads[t].got)
  {
    hide FileOf;
    hide Linked;
    var ph := s.threads[t];
    assert HandleOk(cfg, s, ph);
    var p :| p in s.puts && s.data[ph.ino].bytes <= FileOf(p);
    assert ph.got <= FileOf(p);
  }
}
