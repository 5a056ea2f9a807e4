/** Reachable states of the interleaved machine, and the stretches of steps that witness runs are made of. */
module Reaching {
  import opened Base
  import opened Codec
  import opened Policy
  import opened CacheStore
  import opened ProxyMachine

  ghost predicate Reachable(cfg: Config, s: Proxy) {
    exists states: seq<Proxy>, turns: seq<Turn> :: RunsTo(cfg, states, turns, s)
  }

  ghost predicate RunsTo(cfg: Config, states: seq<Proxy>, turns: seq<Turn>, s: Proxy) {
    ProxyMachine.Run(cfg, states, turns) && states[|turns|] == s
  }

  lemma InitReachable(cfg: Config)
    requires cfg.maxEntries >= 1
    ensures Reachable(cfg, INIT)
  {
    assert RunsTo(cfg, [INIT], [], INIT);
  }

  lemma StepReachable(cfg: Config, s: Proxy, t: nat, a: Action)
    requires Reachable(cfg, s) && Enabled(cfg, s, t, a)
    ensures Reachable(cfg, Apply(cfg, s, t, a))
  {
    hide Enabled;
    hide Apply;
    var states, turns :| RunsTo(cfg, states, turns, s);
    assert RunsTo(cfg, states + [Apply(cfg, s, t, a)], turns + [Turn(t, a)], Apply(cfg, s, t, a));
  }

  lemma GotoTwice(s: Proxy, t: nat, a: Phase, b: Phase)
    ensures Goto(Goto(s, t, a), t, b) == Goto(s, t, b)
  {
    assert s.threads[t := a][t := b] == s.threads[t := b];
  }

  // ---------- Lookups ----------

  /** A request that misses memory goes to the file. */
  lemma MissMemory(cfg: Config, s: Proxy, t: nat, key: string)
    requires Reachable(cfg, s) && PhaseOf(s, t).Idle? && key !in s.memory
    ensures Reachable(cfg, Goto(s, t, Opening(Http12, key, 0)))
  {
    hide Reachable;
    var probing := Probing(Http12, key, 0);
    StepReachable(cfg, s, t, Begin(Http12, key, 0));
    StepReachable(cfg, Goto(s, t, probing), t, Probe(false));
    GotoTwice(s, t, probing, Opening(Http12, key, 0));
  }

  /** A request that finds its key in neither tier. */
  lemma MissBoth(cfg: Config, s: Proxy, t: nat, key: string)
    requires Reachable(cfg, s) && PhaseOf(s, t).Idle? && key !in s.memory && s.dir == map[]
    ensures Reachable(cfg, Goto(s, t, Fetching(key)))
  {
    hide Reachable;
    var opening := Opening(Http12, key, 0);
    MissMemory(cfg, s, t, key);
    StepReachable(cfg, Goto(s, t, opening), t, OpenFile);
    GotoTwice(s, t, opening, Fetching(key));
  }

  /** A request that misses memory reads the whole of a file. */
  lemma ReadWhole(cfg: Config, s: Proxy, t: nat, key: string, ino: nat, bytes: seq<byte>)
    requires Reachable(cfg, s) && PhaseOf(s, t).Idle? && key !in s.memory && bytes != []
    requires EntryFile(cfg.hash(key)) in s.dir && s.dir[EntryFile(cfg.hash(key))] == ino
    requires ino in s.data && s.data[ino].bytes == bytes
    ensures Reachable(cfg, Goto(s, t, AfterRead(Reading(Http12, key, 0, ino, bytes, |s.published|))))
  {
    hide Reachable;
    hide AfterRead;
    var opening, reading := Opening(Http12, key, 0), Reading(Http12, key, 0, ino, [], |s.published|);
    MissMemory(cfg, s, t, key);
    StepReachable(cfg, Goto(s, t, opening), t, OpenFile);
    GotoTwice(s, t, opening, reading);
    var whole := reading.(got := bytes);
    StepReachable(cfg, Goto(s, t, reading), t, ReadSome(|bytes|));
    assert [] + bytes[0..|bytes|] == bytes;
    GotoTwice(s, t, reading, whole);
    StepReachable(cfg, Goto(s, t, whole), t, ReadEnd);
    GotoTwice(s, t, whole, AfterRead(whole));
  }

  /** What a reader of a complete entry goes on with. */
  lemma AfterReadOfEntry(key: string, ino: nat, v: Stored, seen: nat)
    requires Fits(EntryOf(key, v))
    ensures Encoding(EntryOf(key, v)) != []
    ensures AfterRead(Reading(Http12, key, 0, ino, Encoding(EntryOf(key, v)), seen))
         == Filling(Http12, key, 0, Stored(DiskExpiry(v.expiry), v.response), seen)
  {
    hide Encoding;
    hide Decoding;
    hide Fits;
    DecodeOfEncode(EntryOf(key, v), []);
    assert Encoding(EntryOf(key, v)) + [] == Encoding(EntryOf(key, v));
    EmptyIsTruncated();
  }

  lemma EmptyIsTruncated()
    ensures Decoding([]) == Truncated
  {
  }

  // ---------- Puts ----------

  /** The put of a response captured and stored at the epoch. */
  function EarlyPut(key: string, ttl: nat, headers: seq<Header>, body: seq<byte>): PutRecord {
    PutRecord(key, 0, ttl, Stored(0 + Seconds(ttl), Response(200, Captured(headers), body)))
  }

  function Began(s: Proxy, t: nat, p: PutRecord): Proxy {
    Goto(s, t, PutEvicting(p, None)).(puts := s.puts + [p])
  }

  /** A cacheable response arrives for a fetching request. */
  lemma ReceiveResponse(cfg: Config, s: Proxy, t: nat, key: string, ttl: nat, headers: seq<Header>, body: seq<byte>)
    requires Reachable(cfg, s) && PhaseOf(s, t) == Fetching(key)
    requires CaptureTtl(200, headers) == Some(ttl) && Writable(EarlyPut(key, ttl, headers, body))
    ensures Reachable(cfg, Began(s, t, EarlyPut(key, ttl, headers, body)))
  {
    hide Reachable;
    hide CaptureTtl;
    hide Captured;
    hide Writable;
    var p, capturing := EarlyPut(key, ttl, headers, body), Capturing(key, ttl, 200, Captured(headers));
    StepReachable(cfg, s, t, Head(200, headers));
    StepReachable(cfg, Goto(s, t, capturing), t, Store(0, body));
    GotoTwice(s, t, capturing, PutEvicting(p, None));
  }

  function Opened(cfg: Config, s: Proxy, t: nat, p: PutRecord, ino: nat): Proxy {
    Goto(s, t, PutWriting(p, None, ino, 0)).(
      dir := s.dir[TempFile(cfg.hash(p.key)) := ino], data := s.data[ino := File(0, [])])
  }

  /** A put makes room, which may remove nothing, and creates or empties its temporary file. */
  lemma OpenTemp(cfg: Config, s: Proxy, t: nat, p: PutRecord, ino: nat)
    requires Reachable(cfg, s) && PhaseOf(s, t) == PutEvicting(p, None)
    requires var tmp := TempFile(cfg.hash(p.key)); if tmp in s.dir then ino == s.dir[tmp] else ino !in s.data
    ensures Reachable(cfg, Opened(cfg, s, t, p, ino))
  {
    hide Reachable;
    StepReachable(cfg, s, t, Evict(None));
    StepReachable(cfg, Goto(s, t, PutOpening(p, None)), t, Open(ino, 0));
    GotoTwice(s, t, PutOpening(p, None), PutWriting(p, None, ino, 0));
  }

  /** A put writes the first `n` bytes of its file over what is there. */
  lemma WriteSome(cfg: Config, s: Proxy, t: nat, p: PutRecord, ino: nat, n: nat, bytes: seq<byte>)
    requires Reachable(cfg, s) && PhaseOf(s, t) == PutWriting(p, None, ino, 0) && ino in s.data
    requires 0 < n <= |FileOf(p)| && WriteAt(s.data[ino].bytes, 0, FileOf(p)[..n]) == bytes
    ensures var ph := if n < |FileOf(p)| then PutWriting(p, None, ino, n) else PutRenaming(p, None, ino);
            Reachable(cfg, Goto(s, t, ph).(data := s.data[ino := File(0, bytes)]))
  {
    hide Reachable;
    hide FileOf;
    hide WriteAt;
    assert FileOf(p)[0..n] == FileOf(p)[..n];
    assert Enabled(cfg, s, t, Write(n, 0));
    ApplyWrite(cfg, s, t, n, 0);
    StepReachable(cfg, s, t, Write(n, 0));
  }

  lemma WriteOverNothing(bytes: seq<byte>)
    ensures WriteAt([], 0, bytes[..|bytes|]) == bytes
  {
  }

  function OnDisk(cfg: Config, s: Proxy, t: nat, p: PutRecord, ino: nat): Proxy {
    Goto(s, t, PutInserting(p, None)).(
      dir := (s.dir - {TempFile(cfg.hash(p.key))})[EntryFile(cfg.hash(p.key)) := ino],
      data := s.data[ino := File(0, FileOf(p))],
      published := s.published + [p])
  }

  /** A put whose temporary file is empty writes all of it and renames it. */
  lemma WriteAndRename(cfg: Config, s: Proxy, t: nat, p: PutRecord, ino: nat)
    requires Reachable(cfg, s) && PhaseOf(s, t) == PutWriting(p, None, ino, 0)
    requires TempFile(cfg.hash(p.key)) in s.dir && s.dir[TempFile(cfg.hash(p.key))] == ino
    requires ino in s.data && s.data[ino].bytes == [] && FileOf(p) != []
    ensures Reachable(cfg, OnDisk(cfg, s, t, p, ino))
  {
    hide Reachable;
    hide FileOf;
    hide WriteAt;
    var bytes := FileOf(p);
    WriteOverNothing(bytes);
    WriteSome(cfg, s, t, p, ino, |bytes|, bytes);
    var s1 := Goto(s, t, PutRenaming(p, None, ino)).(data := s.data[ino := File(0, bytes)]);
    StepReachable(cfg, s1, t, Rename);
    GotoTwice(s, t, PutRenaming(p, None, ino), PutInserting(p, None));
    ApplyRename(cfg, s1, t);
  }

  /** An undisturbed put into a directory without a temporary file of its hash. */
  lemma WriteToDisk(cfg: Config, s: Proxy, t: nat, p: PutRecord, ino: nat)
    requires Reachable(cfg, s) && PhaseOf(s, t) == PutEvicting(p, None) && FileOf(p) != []
    requires TempFile(cfg.hash(p.key)) !in s.dir && ino !in s.data
    ensures Reachable(cfg, OnDisk(cfg, s, t, p, ino))
  {
    hide Reachable;
    hide FileOf;
    OpenTemp(cfg, s, t, p, ino);
    var s1 := Opened(cfg, s, t, p, ino);
    WriteAndRename(cfg, s1, t, p, ino);
    GotoTwice(s, t, PutWriting(p, None, ino, 0), PutInserting(p, None));
    assert s.data[ino := File(0, [])][ino := File(0, FileOf(p))] == s.data[ino := File(0, FileOf(p))];
    assert s1.dir - {TempFile(cfg.hash(p.key))} == s.dir - {TempFile(cfg.hash(p.key))};
  }

  /** A put whose temporary file cannot be created goes to memory only. */
  lemma SkipDisk(cfg: Config, s: Proxy, t: nat, p: PutRecord, reply: Option<Served>)
    requires Reachable(cfg, s) && PhaseOf(s, t) == PutEvicting(p, reply)
    ensures Reachable(cfg, Goto(s, t, PutInserting(p, reply)))
  {
    hide Reachable;
    StepReachable(cfg, s, t, Evict(None));
    StepReachable(cfg, Goto(s, t, PutOpening(p, reply)), t, DiskFault);
    GotoTwice(s, t, PutOpening(p, reply), PutInserting(p, reply));
  }

  lemma InsertReachable(cfg: Config, s: Proxy, t: nat, p: PutRecord, reply: Option<Served>)
    requires Reachable(cfg, s) && PhaseOf(s, t) == PutInserting(p, reply) && cfg.maxEntries >= 1
    requires s.memory.Keys <= {p.key}
    ensures Reachable(cfg, Reply(Goto(s, t, Idle).(memory := map[p.key := p.v]), reply))
  {
    hide Reachable;
    if |s.memory| > 0 {
      assert p.key in s.memory;
    }
    assert s.memory[p.key := p.v] == map[p.key := p.v];
    StepReachable(cfg, s, t, Insert(map[p.key := p.v]));
  }

  /** A request that finds an unexpired entry in memory. */
  lemma ServeFresh(cfg: Config, s: Proxy, t: nat, key: string, now: Time)
    requires Reachable(cfg, s) && PhaseOf(s, t).Idle? && key in s.memory && 0 <= now < s.memory[key].expiry
    ensures Reachable(cfg, Reply(Goto(s, t, Idle), Some(ServedFresh(key, now, s.memory[key].response))))
  {
    hide Reachable;
    StepReachable(cfg, s, t, Begin(Http12, key, now));
    StepReachable(cfg, Goto(s, t, Probing(Http12, key, now)), t, Probe(false));
    GotoTwice(s, t, Probing(Http12, key, now), Idle);
  }

  /** A request that has read an unexpired entry, and finds memory empty. */
  lemma FillFresh(cfg: Config, s: Proxy, t: nat, key: string, v: Stored, seen: nat)
    requires Reachable(cfg, s) && PhaseOf(s, t) == Filling(Http12, key, 0, v, seen) && s.memory == map[] && v.expiry > 0
    ensures Reachable(cfg, Reply(Goto(s.(memory := map[key := v]), t, Idle), Some(ServedFresh(key, 0, v.response))))
  {
    hide Reachable;
    assert s.memory[key := v] == map[key := v];
    StepReachable(cfg, s, t, Fill(false, map[key := v]));
  }

  /** Two requests that missed. */
  lemma TwoFetching(cfg: Config, key: string)
    requires cfg.maxEntries >= 1
    ensures Reachable(cfg, INIT.(threads := map[1 := Fetching(key), 2 := Fetching(key)]))
  {
    hide Reachable;
    InitReachable(cfg);
    MissBoth(cfg, INIT, 1, key);
    MissBoth(cfg, Goto(INIT, 1, Fetching(key)), 2, key);
  }

  /** Two requests that missed have begun their puts. */
  lemma TwoPutsBegun(cfg: Config, key: string, ttl: nat, headers: seq<Header>, a: seq<byte>, b: seq<byte>)
    requires cfg.maxEntries >= 1 && CaptureTtl(200, headers) == Some(ttl)
    requires Writable(EarlyPut(key, ttl, headers, a)) && Writable(EarlyPut(key, ttl, headers, b))
    ensures var p, q := EarlyPut(key, ttl, headers, a), EarlyPut(key, ttl, headers, b);
            Reachable(cfg, INIT.(threads := map[1 := PutEvicting(p, None), 2 := PutEvicting(q, None)], puts := [p, q]))
  {
    hide Reachable;
    hide CaptureTtl;
    hide Captured;
    hide Fits;
    var p, q := EarlyPut(key, ttl, headers, a), EarlyPut(key, ttl, headers, b);
    TwoFetching(cfg, key);
    var s := INIT.(threads := map[1 := Fetching(key), 2 := Fetching(key)]);
    ReceiveResponse(cfg, s, 1, key, ttl, headers, a);
    s := Began(s, 1, p);
    ReceiveResponse(cfg, s, 2, key, ttl, headers, b);
    s := Began(s, 2, q);
    assert s == INIT.(threads := map[1 := PutEvicting(p, None), 2 := PutEvicting(q, None)], puts := [p, q]);
  }

  // ---------- Revalidation ----------

  /** A response that expires is stored in memory, looked up too late, and the origin asked about it. */
  lemma ReachRevalidating(cfg: Config, key: string, ttl: nat, headers: seq<Header>, body: seq<byte>, now: Time) returns (s: Proxy)
    requires cfg.maxEntries >= 1 && CaptureTtl(200, headers) == Some(ttl)
    requires Writable(EarlyPut(key, ttl, headers, body))
    requires FirstVisible(headers, "etag").Some? && now >= Seconds(ttl)
    ensures var p := EarlyPut(key, ttl, headers, body);
            && Reachable(cfg, s) && s.puts == [p]
            && PhaseOf(s, 1) == Revalidating(Http12, key, now, p.v.response) && PhaseOf(s, 2).Idle?
            && s.memory.Keys == {key}
  {
    hide Reachable;
    hide CaptureTtl;
    hide Captured;
    hide Fits;
    hide FirstVisible;
    hide FirstValue;
    var p := EarlyPut(key, ttl, headers, body);
    InitReachable(cfg);
    s := INIT;
    MissBoth(cfg, s, 1, key);
    s := Goto(s, 1, Fetching(key));
    ReceiveResponse(cfg, s, 1, key, ttl, headers, body);
    s := Began(s, 1, p);
    SkipDisk(cfg, s, 1, p, None);
    s := Goto(s, 1, PutInserting(p, None));
    InsertReachable(cfg, s, 1, p, None);
    s := Goto(s, 1, Idle).(memory := map[key := p.v]);
    StepReachable(cfg, s, 1, Begin(Http12, key, now));
    s := Goto(s, 1, Probing(Http12, key, now));
    KeptNames();
    FirstValueOfCaptured(headers, "etag");
    StepReachable(cfg, s, 1, Probe(true));
    s := Goto(s, 1, Revalidating(Http12, key, now, p.v.response));
  }
}
