/**
 A reachable interleaving in which a lookup puts an older response back over a newer one. `LastPutWins`
 says exactly which interleavings do.
 */
module LostUpdate {
  import opened Base
  import opened Codec
  import opened Policy
  import opened CacheStore
  import opened ProxyMachine
  import opened Reaching
  import opened LastPutWins

  /** The first response is on disk and about to be inserted; another request is still fetching. */
  lemma FirstOnDisk(cfg: Config, key: string, ttl: nat, headers: seq<Header>, older: seq<byte>) returns (s: Proxy)
    requires cfg.maxEntries >= 1 && CaptureTtl(200, headers) == Some(ttl)
    requires Writable(EarlyPut(key, ttl, headers, older))
    ensures var p := EarlyPut(key, ttl, headers, older);
            && Reachable(cfg, s) && s.puts == s.published == [p] && s.memory == map[]
            && s.threads == map[1 := PutInserting(p, None), 2 := Fetching(key)]
            && s.dir == map[EntryFile(cfg.hash(key)) := 1] && s.data == map[1 := File(0, FileOf(p))]
  {
    hide Reachable;
    hide CaptureTtl;
    hide Captured;
    hide Encoding;
    var p := EarlyPut(key, ttl, headers, older);
    AfterReadOfEntry(key, 1, p.v, 1);
    hide Fits;
    TwoFetching(cfg, key);
    s := INIT.(threads := map[1 := Fetching(key), 2 := Fetching(key)]);
    ReceiveResponse(cfg, s, 1, key, ttl, headers, older);
    s := Began(s, 1, p);
    WriteToDisk(cfg, s, 1, p, 1);
    s := OnDisk(cfg, s, 1, p, 1);
    assert s.threads == map[1 := PutInserting(p, None), 2 := Fetching(key)];
    assert s.dir == map[EntryFile(cfg.hash(key)) := 1];
  }

  /** A put is inserted after another request has read its file. */
  lemma ReadThenInsert(cfg: Config, s: Proxy, key: string, p: PutRecord, other: Phase) returns (s': Proxy)
    requires cfg.maxEntries >= 1 && Reachable(cfg, s) && p.key == key && Writable(p) && s.memory == map[]
    requires s.threads == map[1 := PutInserting(p, None), 2 := other]
    requires s.dir == map[EntryFile(cfg.hash(key)) := 1] && s.data == map[1 := File(0, FileOf(p))]
    ensures Reachable(cfg, s') && s'.puts == s.puts && s'.published == s.published && s'.dir == s.dir && s'.data == s.data
    ensures s'.memory == map[key := p.v]
    ensures s'.threads == map[1 := Idle, 2 := other,
                              3 := Filling(Http12, key, 0, Stored(DiskExpiry(p.v.expiry), p.v.response), |s.published|)]
  {
    hide Reachable;
    hide Encoding;
    hide AfterRead;
    AfterReadOfEntry(key, 1, p.v, |s.published|);
    hide Fits;
    hide DiskExpiry;
    var filling := Filling(Http12, key, 0, Stored(DiskExpiry(p.v.expiry), p.v.response), |s.published|);
    ReadWhole(cfg, s, 3, key, 1, FileOf(p));
    hide FileOf;
    var s2 := Goto(s, 3, filling);
    InsertReachable(cfg, s2, 1, p, None);
    s' := Goto(s2, 1, Idle).(memory := map[key := p.v]);
  }

  /** The state after the first response has been stored, read by thread 3, and thread 2 is still fetching. */
  lemma FirstStored(cfg: Config, key: string, ttl: nat, headers: seq<Header>, older: seq<byte>) returns (s: Proxy)
    requires cfg.maxEntries >= 1 && CaptureTtl(200, headers) == Some(ttl)
    requires Writable(EarlyPut(key, ttl, headers, older))
    ensures var p := EarlyPut(key, ttl, headers, older);
            && Reachable(cfg, s) && s.puts == s.published == [p]
            && s.memory == map[key := p.v]
            && s.threads == map[1 := Idle, 2 := Fetching(key),
                                3 := Filling(Http12, key, 0, Stored(DiskExpiry(p.v.expiry), p.v.response), 1)]
            && TempFile(cfg.hash(key)) !in s.dir && 2 !in s.data
  {
    var p := EarlyPut(key, ttl, headers, older);
    assert p.key == key;
    hide *;
    var s1 := FirstOnDisk(cfg, key, ttl, headers, older);
    s := ReadThenInsert(cfg, s1, key, p, Fetching(key));
  }

  /**
   For every key, lifetime, headers and two bodies: a run may put the older one and then the newer one,
   finish both puts, hold the newer one in memory with nobody putting anything, and still a single
   refill, by a lookup that read its file in between, makes the older one what memory holds.
   */
  lemma OlderResponseComesBack(cfg: Config, key: string, ttl: nat, headers: seq<Header>, older: seq<byte>, newer: seq<byte>)
    requires cfg.maxEntries >= 1 && CaptureTtl(200, headers) == Some(ttl)
    requires Writable(EarlyPut(key, ttl, headers, older)) && Writable(EarlyPut(key, ttl, headers, newer))
    ensures var p, q := EarlyPut(key, ttl, headers, older), EarlyPut(key, ttl, headers, newer);
            exists s: Proxy, t: nat, memory: Memory ::
              && Reachable(cfg, s) && s.puts == s.published == [p, q]
              && (forall u | u in s.threads :: !Putting(s.threads[u]))
              && s.memory == map[key := q.v]
              && Enabled(cfg, s, t, Fill(false, memory))
              && Apply(cfg, s, t, Fill(false, memory)).memory == map[key := p.v.(expiry := DiskExpiry(p.v.expiry))]
  {
    hide Reachable;
    hide CaptureTtl;
    hide Captured;
    hide Encoding;
    var p, q := EarlyPut(key, ttl, headers, older), EarlyPut(key, ttl, headers, newer);
    hide Fits;
    var s := FirstStored(cfg, key, ttl, headers, older);
    var v := s.threads[3].v;
    s := SecondStored(cfg, s, 2, key, ttl, headers, newer, 2);
    assert s.memory[key := v] == map[key := v];
    FillReplaces(cfg, s, 3, map[key := v]);
  }

  /** A fetching request stores its response, on disk and in memory. */
  lemma SecondStored(cfg: Config, s: Proxy, t: nat, key: string, ttl: nat, headers: seq<Header>, body: seq<byte>, ino: nat)
    returns (s': Proxy)
    requires cfg.maxEntries >= 1 && Reachable(cfg, s) && PhaseOf(s, t) == Fetching(key) && s.memory.Keys <= {key}
    requires CaptureTtl(200, headers) == Some(ttl) && Writable(EarlyPut(key, ttl, headers, body))
    requires TempFile(cfg.hash(key)) !in s.dir && ino !in s.data
    ensures var p := EarlyPut(key, ttl, headers, body);
            && Reachable(cfg, s') && s'.memory == map[key := p.v] && s'.threads == s.threads[t := Idle]
            && s'.puts == s.puts + [p] && s'.published == s.published + [p]
  {
    hide Reachable;
    hide CaptureTtl;
    hide Captured;
    hide Encoding;
    var p := EarlyPut(key, ttl, headers, body);
    AfterReadOfEntry(key, ino, p.v, 0);
    hide Fits;
    ReceiveResponse(cfg, s, t, key, ttl, headers, body);
    s' := Began(s, t, p);
    WriteToDisk(cfg, s', t, p, ino);
    s' := OnDisk(cfg, s', t, p, ino);
    InsertReachable(cfg, s', t, p, None);
    s' := Goto(s', t, Idle).(memory := map[key := p.v]);
    GotoTwice(s, t, PutEvicting(p, None), PutInserting(p, None));
    GotoTwice(s, t, PutInserting(p, None), Idle);
  }

  lemma FillReplaces(cfg: Config, s: Proxy, t: nat, memory: Memory)
    requires PhaseOf(s, t).Filling? && PhaseOf(s, t).key in s.memory && memory == s.memory[PhaseOf(s, t).key := PhaseOf(s, t).v]
    ensures Enabled(cfg, s, t, Fill(false, memory)) && Apply(cfg, s, t, Fill(false, memory)).memory == memory
  {
    hide Etag;
  }
}
