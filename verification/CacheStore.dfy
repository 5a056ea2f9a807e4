/**
 The two-tier response cache as a state machine: a bounded memory map in front of a directory of
 hashed files. The specification it must agree with is the unbounded map "last put wins".
 */
module CacheStore {
  import opened Base
  import opened Codec

  // ---------- State ----------

  datatype Stored = Stored(expiry: Time, response: Response)
  /** `Panicked` is a lookup that meets a file whose expiry the clock cannot hold. */
  datatype Lookup = Miss | Fresh(response: Response) | Stale(response: Response) | Panicked

  function Classify(v: Stored, now: Time): Lookup {
    if v.expiry > now then Fresh(v.response) else Stale(v.response)
  }

  type Memory = map<string, Stored>

  /** A cache directory holds one file per hash, and temporary files on their way there. */
  datatype Name = EntryFile(hash: nat) | TempFile(hash: nat)
  datatype File = File(modified: Time, bytes: seq<byte>)
  type Directory = map<Name, File>

  /** The hash is arbitrary: nothing below depends on it being collision-free. */
  datatype Config = Config(maxEntries: nat, hash: string -> nat)

  datatype State = State(memory: Memory, disk: Option<Directory>)

  function EntryFiles(d: Directory): set<Name> {
    set n | n in d && n.EntryFile?
  }

  // ---------- Operations ----------

  ghost predicate Oldest<K>(times: map<K, Time>, k: K) {
    k in times && forall x | x in times :: times[k] <= times[x]
  }

  function Expiries(m: Memory): map<string, Time> {
    map k | k in m :: m[k].expiry
  }

  function ModifiedTimes(d: Directory): map<Name, Time> {
    map n | n in d && n.EntryFile? :: d[n].modified
  }

  /** `insert_memory`: when full, an entry that expires soonest makes room for a new key. */
  ghost predicate Inserted(max: nat, m: Memory, key: string, v: Stored, m': Memory) {
    if |m| >= max && key !in m && |m| > 0 then
      exists victim :: Oldest(Expiries(m), victim) && m' == (m - {victim})[key := v]
    else
      m' == m[key := v]
  }

  /** `evict`: when full, the entry file written longest ago goes. */
  ghost predicate Evicted(max: nat, d: Directory, d': Directory) {
    if |EntryFiles(d)| >= max && |EntryFiles(d)| > 0 then
      exists victim :: Oldest(ModifiedTimes(d), victim) && d' == d - {victim}
    else
      d' == d
  }

  function DiskGet(hash: string -> nat, d: Directory, key: string): Option<Stored> {
    var name := EntryFile(hash(key));
    if name !in d then None
    else
      match Decoding(d[name].bytes)
      case Complete(e, _) => if e.key == key then Some(Stored(e.expiry, e.response)) else None
      case _ => None
  }

  predicate DiskPanics(hash: string -> nat, d: Directory, key: string) {
    EntryFile(hash(key)) in d && Decoding(d[EntryFile(hash(key))].bytes) == ClockOverflow
  }

  function Renamed(d: Directory, from: Name, to: Name): Directory
    requires from in d
  {
    (d - {from})[to := d[from]]
  }

  /** Evict, write the temporary file, rename it into place. */
  ghost predicate DiskPut(cfg: Config, d: Directory, e: Entry, d': Directory) {
    exists evicted, modified ::
      Evicted(cfg.maxEntries, d, evicted) && d' == Published(cfg, evicted, e, modified)
  }

  function Published(cfg: Config, d: Directory, e: Entry, modified: Time): Directory {
    var h := cfg.hash(e.key);
    Renamed(d[TempFile(h) := File(modified, Encoding(e))], TempFile(h), EntryFile(h))
  }

  datatype Event =
    | Put(key: string, v: Stored)
    | Look(key: string, now: Time, result: Lookup)
    | Restart

  ghost predicate Step(cfg: Config, s: State, ev: Event, s': State) {
    match ev
    case Put(key, v) =>
      && Inserted(cfg.maxEntries, s.memory, key, v, s'.memory)
      && s.disk.Some? == s'.disk.Some?
      && (s.disk.Some? ==> DiskPut(cfg, s.disk.value, Entry(key, v.expiry, v.response), s'.disk.value))
    case Look(key, now, result) =>
      s'.disk == s.disk &&
      if key in s.memory then
        result == Classify(s.memory[key], now) && s' == s
      else if s.disk.Some? && DiskPanics(cfg.hash, s.disk.value, key) then
        result == Panicked && s' == s
      else
        var found := if s.disk.Some? then DiskGet(cfg.hash, s.disk.value, key) else None;
        if found.Some? then
          result == Classify(found.value, now) && Inserted(cfg.maxEntries, s.memory, key, found.value, s'.memory)
        else
          result == Miss && s' == s
    case Restart =>
      s' == s.(memory := map[])
  }

  // ---------- Runs ----------

  /** A sequential history from an empty cache: the state before and after every event. */
  ghost predicate Run(cfg: Config, states: seq<State>, events: seq<Event>) {
    && cfg.maxEntries >= 1
    && |states| == |events| + 1
    && states[0].memory == map[] && (states[0].disk.Some? ==> states[0].disk.value == map[])
    && forall i | 0 <= i < |events| :: Step(cfg, states[i], events[i], states[i + 1])
  }

  /** The specification: what was last put under a key. */
  function LastPut(events: seq<Event>, key: string): Option<Stored> {
    if events == [] then None
    else
      var ev := events[|events| - 1];
      if ev.Put? && ev.key == key then Some(ev.v) else LastPut(events[..|events| - 1], key)
  }

  predicate Storable(events: seq<Event>) {
    forall ev | ev in events && ev.Put? :: Fits(Entry(ev.key, ev.v.expiry, ev.v.response))
  }

  /** The expiry either is exact or has been through a file. */
  predicate SameUpToDisk(v: Stored, put: Stored) {
    v.response == put.response && (v.expiry == put.expiry || v.expiry == DiskExpiry(put.expiry))
  }

  function EntryOf(key: string, v: Stored): Entry {
    Entry(key, v.expiry, v.response)
  }

  /** The file was written by the last put of some key that hashes there. */
  ghost predicate FileAgrees(cfg: Config, events: seq<Event>, h: nat, bytes: seq<byte>) {
    exists k :: FileHolds(cfg, events, h, bytes, k)
  }

  ghost predicate FileHolds(cfg: Config, events: seq<Event>, h: nat, bytes: seq<byte>, k: string) {
    && cfg.hash(k) == h && LastPut(events, k).Some?
    && Fits(EntryOf(k, LastPut(events, k).value))
    && bytes == Encoding(EntryOf(k, LastPut(events, k).value))
  }

  ghost predicate MemoryAgrees(s: State, events: seq<Event>) {
    forall k | k in s.memory ::
      && LastPut(events, k).Some?
      && SameUpToDisk(s.memory[k], LastPut(events, k).value)
      && (s.disk.None? ==> s.memory[k] == LastPut(events, k).value)
  }

  ghost predicate DiskAgrees(cfg: Config, d: Directory, events: seq<Event>) {
    && |EntryFiles(d)| <= cfg.maxEntries
    && forall n | n in d && n.EntryFile? :: FileAgrees(cfg, events, n.hash, d[n].bytes)
  }

  /** What every step keeps: both tiers only hold last puts, and neither exceeds its bound. */
  ghost predicate Agrees(cfg: Config, s: State, events: seq<Event>) {
    && cfg.maxEntries >= 1
    && |s.memory| <= cfg.maxEntries
    && MemoryAgrees(s, events)
    && (s.disk.Some? ==> DiskAgrees(cfg, s.disk.value, events))
  }

  // ---------- Each step keeps the agreement ----------

  lemma InsertedFacts(max: nat, m: Memory, key: string, v: Stored, m': Memory)
    requires max >= 1 && |m| <= max && Inserted(max, m, key, v, m')
    ensures |m'| <= max
    ensures key in m' && m'[key] == v
    ensures forall k | k in m' && k != key :: k in m && m'[k] == m[k]
  {
    if |m| >= max && key !in m {
      var victim :| Oldest(Expiries(m), victim) && m' == (m - {victim})[key := v];
      assert m'.Keys == (m.Keys - {victim}) + {key};
      assert |m.Keys - {victim}| == |m.Keys| - 1;
    } else {
      assert m'.Keys == m.Keys + {key};
    }
  }

  lemma EvictedFacts(max: nat, d: Directory, d': Directory)
    requires max >= 1 && |EntryFiles(d)| <= max && Evicted(max, d, d')
    ensures |EntryFiles(d')| < max
    ensures forall n | n in d' :: n in d && d'[n] == d[n]
  {
    if |EntryFiles(d)| >= max {
      var victim :| Oldest(ModifiedTimes(d), victim) && d' == d - {victim};
      assert EntryFiles(d') == EntryFiles(d) - {victim};
    }
  }

  lemma PublishedFacts(cfg: Config, d: Directory, e: Entry, modified: Time)
    ensures var d' := Published(cfg, d, e, modified); var name := EntryFile(cfg.hash(e.key));
            && name in d' && d'[name].bytes == Encoding(e)
            && (forall n | n in d' && n != name :: n in d && d'[n] == d[n])
            && |EntryFiles(d')| <= |EntryFiles(d)| + 1
  {
    hide Encoding;
    var d', name := Published(cfg, d, e, modified), EntryFile(cfg.hash(e.key));
    assert EntryFiles(d') == EntryFiles(d) + {name};
  }

  lemma LastPutSnoc(events: seq<Event>, ev: Event, key: string)
    ensures LastPut(events + [ev], key)
         == if ev.Put? && ev.key == key then Some(ev.v) else LastPut(events, key)
  {
    assert (events + [ev])[..|events|] == events;
  }

  lemma DiskGetAgrees(cfg: Config, d: Directory, events: seq<Event>, key: string)
    requires DiskAgrees(cfg, d, events)
    ensures var r := DiskGet(cfg.hash, d, key);
            r.Some? ==> LastPut(events, key).Some? && SameUpToDisk(r.value, LastPut(events, key).value)
    ensures !DiskPanics(cfg.hash, d, key)
  {
    hide Encoding;
    hide Decoding;
    hide Fits;
    var name := EntryFile(cfg.hash(key));
    if name in d {
      assert FileAgrees(cfg, events, name.hash, d[name].bytes);
      var k :| FileHolds(cfg, events, name.hash, d[name].bytes, k);
      var e := EntryOf(k, LastPut(events, k).value);
      DecodeOfEncode(e, []);
      assert Encoding(e) + [] == d[name].bytes;
    }
  }

  lemma PutKeepsDisk(cfg: Config, d: Directory, key: string, v: Stored, d': Directory, events: seq<Event>)
    requires cfg.maxEntries >= 1 && DiskAgrees(cfg, d, events) && Fits(EntryOf(key, v))
    requires DiskPut(cfg, d, EntryOf(key, v), d')
    ensures DiskAgrees(cfg, d', events + [Put(key, v)])
  {
    hide Encoding;
    hide Fits;
    hide LastPut;
    hide Published;
    hide Evicted;
    var e, events' := EntryOf(key, v), events + [Put(key, v)];
    var evicted, modified :| Evicted(cfg.maxEntries, d, evicted) && d' == Published(cfg, evicted, e, modified);
    EvictedFacts(cfg.maxEntries, d, evicted);
    PublishedFacts(cfg, evicted, e, modified);
    forall n | n in d' && n.EntryFile? ensures FileAgrees(cfg, events', n.hash, d'[n].bytes) {
      if n == EntryFile(cfg.hash(key)) {
        LastPutSnoc(events, Put(key, v), key);
        assert FileHolds(cfg, events', n.hash, d'[n].bytes, key);
      } else {
        assert n in d && FileAgrees(cfg, events, n.hash, d[n].bytes);
        var k :| FileHolds(cfg, events, n.hash, d[n].bytes, k);
        LastPutSnoc(events, Put(key, v), k);
        assert FileHolds(cfg, events', n.hash, d'[n].bytes, k);
      }
    }
  }

  lemma SameLastPutsKeepDisk(cfg: Config, d: Directory, events: seq<Event>, events': seq<Event>)
    requires DiskAgrees(cfg, d, events)
    requires forall k :: LastPut(events', k) == LastPut(events, k)
    ensures DiskAgrees(cfg, d, events')
  {
    hide Encoding;
    hide Fits;
    hide LastPut;
    forall n | n in d && n.EntryFile? ensures FileAgrees(cfg, events', n.hash, d[n].bytes) {
      assert FileAgrees(cfg, events, n.hash, d[n].bytes);
      var k :| FileHolds(cfg, events, n.hash, d[n].bytes, k);
      assert FileHolds(cfg, events', n.hash, d[n].bytes, k);
    }
  }

  /** No operation, eviction or restart can make either tier disagree with "last put wins". */
  lemma StepKeepsAgreement(cfg: Config, s: State, events: seq<Event>, ev: Event, s': State)
    requires Agrees(cfg, s, events) && Step(cfg, s, ev, s')
    requires ev.Put? ==> Fits(EntryOf(ev.key, ev.v))
    ensures Agrees(cfg, s', events + [ev])
  {
    hide LastPut;
    hide DiskGet;
    hide DiskPut;
    hide DiskAgrees;
    hide Inserted;
    hide Fits;
    forall k ensures LastPut(events + [ev], k)
                  == if ev.Put? && ev.key == k then Some(ev.v) else LastPut(events, k)
    {
      LastPutSnoc(events, ev, k);
    }
    if s.disk.Some? {
      if ev.Put? {
        PutKeepsDisk(cfg, s.disk.value, ev.key, ev.v, s'.disk.value, events);
      } else {
        SameLastPutsKeepDisk(cfg, s.disk.value, events, events + [ev]);
      }
    }
    match ev {
      case Put(key, v) =>
        InsertedFacts(cfg.maxEntries, s.memory, key, v, s'.memory);
      case Look(key, now, result) =>
        if key !in s.memory && s.disk.Some? {
          DiskGetAgrees(cfg, s.disk.value, events, key);
          var found := DiskGet(cfg.hash, s.disk.value, key);
          if found.Some? {
            InsertedFacts(cfg.maxEntries, s.memory, key, found.value, s'.memory);
          }
        }
      case Restart =>
    }
  }

  lemma {:induction false} RunAgrees(cfg: Config, states: seq<State>, events: seq<Event>, n: nat)
    requires Run(cfg, states, events) && Storable(events) && n <= |events|
    ensures Agrees(cfg, states[n], events[..n])
  {
    if n == 0 {
      assert states[0].disk.Some? ==> EntryFiles(states[0].disk.value) == {};
    } else {
      RunAgrees(cfg, states, events, n - 1);
      assert events[..n] == events[..n - 1] + [events[n - 1]];
      StepKeepsAgreement(cfg, states[n - 1], events[..n - 1], events[n - 1], states[n]);
    }
  }

  // ---------- What makes room ----------

  /** Memory loses an entry only to a new key when it is full, one at a time, and one that expires soonest. */
  lemma LostFromMemory(cfg: Config, s: State, ev: Event, s': State, key: string)
    requires Step(cfg, s, ev, s') && ev != Restart && key in s.memory && key !in s'.memory
    ensures |s.memory| >= cfg.maxEntries && ev.key !in s.memory
    ensures s'.memory.Keys == s.memory.Keys - {key} + {ev.key}
    ensures forall k | k in s.memory :: s.memory[key].expiry <= s.memory[k].expiry
  {
    hide DiskGet;
    hide DiskPut;
    hide DiskPanics;
    var victim :| Oldest(Expiries(s.memory), victim) && s'.memory.Keys == s.memory.Keys - {victim} + {ev.key};
    assert victim == key;
    forall k | k in s.memory ensures s.memory[key].expiry <= s.memory[k].expiry {
      assert k in Expiries(s.memory);
    }
  }

  /** The directory loses an entry file only to a put when it is full, one at a time, and one written longest ago. */
  lemma LostFromDisk(cfg: Config, d: Directory, e: Entry, d': Directory, name: Name)
    requires DiskPut(cfg, d, e, d') && name in d && name.EntryFile? && name !in d'
    ensures |EntryFiles(d)| >= cfg.maxEntries
    ensures EntryFiles(d') == EntryFiles(d) - {name} + {EntryFile(cfg.hash(e.key))}
    ensures forall n | n in d && n.EntryFile? :: d[name].modified <= d[n].modified
  {
    hide Encoding;
    var evicted, modified :| Evicted(cfg.maxEntries, d, evicted) && d' == Published(cfg, evicted, e, modified);
    var victim :| Oldest(ModifiedTimes(d), victim) && evicted == d - {victim};
    assert victim == name;
    forall n | n in d && n.EntryFile? ensures d[name].modified <= d[n].modified {
      assert n in ModifiedTimes(d);
    }
  }

  // ---------- Main results ----------

  /** What a caller may conclude from an answer, given the last response put under the key. */
  predicate Justified(result: Lookup, last: Option<Stored>, now: Time) {
    match result
    case Miss => true
    case Fresh(r) => last.Some? && r == last.value.response && (last.value.expiry >= 0 ==> now < last.value.expiry)
    case Stale(r) => last.Some? && r == last.value.response && last.value.expiry < now + NANOS
    case Panicked => false
  }

  /**
   Two-tier refinement: over every sequential run, whatever the hash collides and whatever either
   tier evicts, a lookup misses or returns exactly the last response put under its key, and never
   panics. A fresh answer has not expired; a stale one expired, or is within the second that the
   file truncates.
   */
  lemma TwoTierRefinement(cfg: Config, states: seq<State>, events: seq<Event>, i: nat)
    requires Run(cfg, states, events) && Storable(events)
    requires i < |events| && events[i].Look?
    ensures Justified(events[i].result, LastPut(events[..i], events[i].key), events[i].now)
    ensures |states[i].memory| <= cfg.maxEntries
    ensures states[i].disk.Some? ==> |EntryFiles(states[i].disk.value)| <= cfg.maxEntries
  {
    hide LastPut;
    hide DiskGet;
    hide Inserted;
    RunAgrees(cfg, states, events, i);
    var s, key := states[i], events[i].key;
    assert Step(cfg, s, events[i], states[i + 1]);
    if s.disk.Some? {
      DiskGetAgrees(cfg, s.disk.value, events[..i], key);
    }
  }

  /** The response, fresh exactly before its expiry and stale from then on. */
  predicate Answers(result: Lookup, response: Response, expiry: Time, now: Time) {
    if now < expiry then result == Fresh(response) else result == Stale(response)
  }

  /** Without the disk tier the answer is exact: fresh if and only if the last put has not expired. */
  lemma MemoryOnlyIsExact(cfg: Config, states: seq<State>, events: seq<Event>, i: nat)
    requires Run(cfg, states, events) && Storable(events)
    requires i < |events| && events[i].Look? && states[i].disk.None?
    ensures var last, result := LastPut(events[..i], events[i].key), events[i].result;
            || result == Miss
            || (last.Some? && Answers(result, last.value.response, last.value.expiry, events[i].now))
  {
    hide LastPut;
    RunAgrees(cfg, states, events, i);
    assert Step(cfg, states[i], events[i], states[i + 1]);
  }

  // ---------- Nothing is lost while everything fits ----------

  function PutKeys(events: seq<Event>): set<string> {
    set ev | ev in events && ev.Put? :: ev.key
  }

  /** The memory tier is the specification itself. */
  ghost predicate Exact(s: State, events: seq<Event>) {
    && (forall k :: k in s.memory <==> LastPut(events, k).Some?)
    && (forall k | k in s.memory :: LastPut(events, k) == Some(s.memory[k]))
  }

  lemma NoEviction(max: nat, m: Memory, keys: set<string>, key: string, v: Stored, m': Memory)
    requires m.Keys <= keys && key in keys && |keys| <= max
    requires Inserted(max, m, key, v, m')
    ensures m' == m[key := v]
  {
    if key !in m {
      assert |m.Keys + {key}| == |m.Keys| + 1;
      SubsetSize(m.Keys + {key}, keys);
    }
  }

  lemma StepKeepsExact(cfg: Config, s: State, events: seq<Event>, ev: Event, s': State, keys: set<string>)
    requires Agrees(cfg, s, events) && Step(cfg, s, ev, s') && ev != Restart
    requires Exact(s, events) && s.memory.Keys <= keys && |keys| <= cfg.maxEntries
    requires ev.Put? ==> ev.key in keys
    ensures Exact(s', events + [ev]) && s'.memory.Keys <= keys
  {
    hide LastPut;
    hide DiskGet;
    hide DiskPut;
    hide DiskAgrees;
    hide Inserted;
    forall k ensures LastPut(events + [ev], k)
                  == if ev.Put? && ev.key == k then Some(ev.v) else LastPut(events, k)
    {
      LastPutSnoc(events, ev, k);
    }
    if ev.Put? {
      NoEviction(cfg.maxEntries, s.memory, keys, ev.key, ev.v, s'.memory);
    } else if ev.key !in s.memory && s.disk.Some? {
      DiskGetAgrees(cfg, s.disk.value, events, ev.key);
    }
  }

  lemma EmptyIsExact(cfg: Config, states: seq<State>, events: seq<Event>)
    requires Run(cfg, states, events)
    ensures Exact(states[0], events[..0]) && states[0].memory.Keys <= PutKeys(events)
  {
    hide Step;
  }

  lemma EventOfRun(cfg: Config, states: seq<State>, events: seq<Event>, i: nat)
    requires Run(cfg, states, events) && Storable(events) && i < |events| && Restart !in events
    ensures Step(cfg, states[i], events[i], states[i + 1]) && events[i] != Restart
    ensures events[..i + 1] == events[..i] + [events[i]]
    ensures events[i].Put? ==> events[i].key in PutKeys(events) && Fits(EntryOf(events[i].key, events[i].v))
  {
    hide Step;
    hide Fits;
    assert events[i] in events;
  }

  lemma {:induction false} FittingRunIsExact(cfg: Config, states: seq<State>, events: seq<Event>, n: nat)
    requires Run(cfg, states, events) && Storable(events) && n <= |events|
    requires |PutKeys(events)| <= cfg.maxEntries && Restart !in events
    ensures Exact(states[n], events[..n]) && states[n].memory.Keys <= PutKeys(events)
    decreases n
  {
    assert |states| == |events| + 1;
    hide *;
    if n == 0 {
      EmptyIsExact(cfg, states, events);
    } else {
      var ev, s, s' := events[n - 1], states[n - 1], states[n];
      FittingRunIsExact(cfg, states, events, n - 1);
      RunAgrees(cfg, states, events, n - 1);
      EventOfRun(cfg, states, events, n - 1);
      StepKeepsExact(cfg, s, events[..n - 1], ev, s', PutKeys(events));
    }
  }

  /**
   While no more keys are put than fit, the bounded two-tier cache answers exactly like the
   unbounded map: a miss only for a key never put, otherwise the last put, fresh until it expires.
   */
  lemma ExactWhileItFits(cfg: Config, states: seq<State>, events: seq<Event>, i: nat)
    requires Run(cfg, states, events) && Storable(events)
    requires |PutKeys(events)| <= cfg.maxEntries && Restart !in events
    requires i < |events| && events[i].Look?
    ensures match LastPut(events[..i], events[i].key)
            case None => events[i].result == Miss
            case Some(v) => Answers(events[i].result, v.response, v.expiry, events[i].now)
  {
    hide LastPut;
    hide DiskGet;
    FittingRunIsExact(cfg, states, events, i);
    RunAgrees(cfg, states, events, i);
    var s, key := states[i], events[i].key;
    assert Step(cfg, s, events[i], states[i + 1]);
    if s.disk.Some? {
      DiskGetAgrees(cfg, s.disk.value, events[..i], key);
    }
  }

  // ---------- Nothing is lost over restarts while everything fits ----------

  function NamesOf(hash: string -> nat, keys: set<string>): set<Name> {
    set k | k in keys :: EntryFile(hash(k))
  }

  lemma {:induction false} NamesOfSize(hash: string -> nat, keys: set<string>)
    ensures |NamesOf(hash, keys)| <= |keys|
  {
    if keys != {} {
      var k :| k in keys;
      NamesOfSize(hash, keys - {k});
      assert NamesOf(hash, keys) == NamesOf(hash, keys - {k}) + {EntryFile(hash(k))};
    }
  }

  ghost predicate Collide(hash: string -> nat, keys: set<string>) {
    exists j, k :: j in keys && k in keys && j != k && hash(j) == hash(k)
  }

  ghost predicate HoldsLast(cfg: Config, d: Directory, events: seq<Event>, k: string) {
    EntryFile(cfg.hash(k)) in d && FileHolds(cfg, events, cfg.hash(k), d[EntryFile(cfg.hash(k))].bytes, k)
  }

  /** The directory holds the last put of every key, and nothing else. */
  ghost predicate DiskComplete(cfg: Config, d: Directory, events: seq<Event>, keys: set<string>) {
    && EntryFiles(d) <= NamesOf(cfg.hash, keys)
    && forall k | LastPut(events, k).Some? :: k in keys && HoldsLast(cfg, d, events, k)
  }

  /**
   Room for these keys over restarts: one key fewer than the limit, because every put makes room before
   it writes, even a put that replaces its own file; a cache of one entry makes room only from itself.
   */
  predicate RoomFor(cfg: Config, keys: set<string>) {
    |keys| < cfg.maxEntries || |keys| <= cfg.maxEntries == 1
  }

  lemma OnlyKey(keys: set<string>, key: string)
    requires key in keys && |keys| <= 1
    ensures keys == {key}
  {
    forall k | k in keys ensures k == key {
      if k != key {
        assert {k, key} <= keys;
        SubsetSize({k, key}, keys);
      }
    }
  }

  /** Where there is room, making it takes no file of another key. */
  lemma RoomKeepsOthers(cfg: Config, d: Directory, evicted: Directory, keys: set<string>, key: string)
    requires EntryFiles(d) <= NamesOf(cfg.hash, keys) && RoomFor(cfg, keys) && key in keys
    requires Evicted(cfg.maxEntries, d, evicted)
    ensures EntryFiles(evicted) <= EntryFiles(d)
    ensures forall k | k in keys && k != key && EntryFile(cfg.hash(k)) in d ::
              EntryFile(cfg.hash(k)) in evicted && evicted[EntryFile(cfg.hash(k))] == d[EntryFile(cfg.hash(k))]
  {
    NamesOfSize(cfg.hash, keys);
    SubsetSize(EntryFiles(d), NamesOf(cfg.hash, keys));
    if |keys| >= cfg.maxEntries {
      OnlyKey(keys, key);
    } else {
      assert evicted == d;
    }
  }

  lemma PutKeepsComplete(cfg: Config, d: Directory, key: string, v: Stored, d': Directory, events: seq<Event>, keys: set<string>)
    requires DiskComplete(cfg, d, events, keys) && RoomFor(cfg, keys)
    requires key in keys && !Collide(cfg.hash, keys) && Fits(EntryOf(key, v))
    requires DiskPut(cfg, d, EntryOf(key, v), d')
    ensures DiskComplete(cfg, d', events + [Put(key, v)], keys)
  {
    hide Encoding;
    hide Fits;
    hide LastPut;
    hide Published;
    hide Evicted;
    hide RoomFor;
    var e, events' := EntryOf(key, v), events + [Put(key, v)];
    var evicted, modified :| Evicted(cfg.maxEntries, d, evicted) && d' == Published(cfg, evicted, e, modified);
    RoomKeepsOthers(cfg, d, evicted, keys, key);
    PublishedKeeps(cfg, evicted, e, modified);
    forall k | LastPut(events', k).Some? ensures k in keys && HoldsLast(cfg, d', events', k) {
      LastPutSnoc(events, Put(key, v), k);
      if k != key {
        assert HoldsLast(cfg, d, events, k);
        assert cfg.hash(k) != cfg.hash(key);
      }
    }
  }

  /** Publishing an entry leaves every other entry file alone. */
  lemma PublishedKeeps(cfg: Config, d: Directory, e: Entry, modified: Time)
    ensures var d' := Published(cfg, d, e, modified); var name := EntryFile(cfg.hash(e.key));
            && name in d' && d'[name].bytes == Encoding(e)
            && EntryFiles(d') == EntryFiles(d) + {name}
            && forall n | n in d && n.EntryFile? && n != name :: n in d' && d'[n] == d[n]
  {
    hide Encoding;
  }

  lemma {:induction false} FittingRunIsComplete(cfg: Config, states: seq<State>, events: seq<Event>, n: nat)
    requires Run(cfg, states, events) && Storable(events) && n <= |events| && states[n].disk.Some?
    requires RoomFor(cfg, PutKeys(events)) && !Collide(cfg.hash, PutKeys(events))
    ensures DiskComplete(cfg, states[n].disk.value, events[..n], PutKeys(events))
  {
    hide Collide;
    hide Encoding;
    hide Fits;
    if n > 0 {
      hide LastPut;
      var ev, keys := events[n - 1], PutKeys(events);
      assert Step(cfg, states[n - 1], ev, states[n]);
      FittingRunIsComplete(cfg, states, events, n - 1);
      assert events[..n] == events[..n - 1] + [ev];
      if ev.Put? {
        PutKeepsComplete(cfg, states[n - 1].disk.value, ev.key, ev.v, states[n].disk.value, events[..n - 1], keys);
      } else {
        forall k ensures LastPut(events[..n], k) == LastPut(events[..n - 1], k) {
          LastPutSnoc(events[..n - 1], ev, k);
        }
        CompleteIgnoresRest(cfg, states[n].disk.value, events[..n - 1], events[..n], keys);
      }
    }
  }

  lemma CompleteIgnoresRest(cfg: Config, d: Directory, events: seq<Event>, events': seq<Event>, keys: set<string>)
    requires DiskComplete(cfg, d, events, keys)
    requires forall k :: LastPut(events', k) == LastPut(events, k)
    ensures DiskComplete(cfg, d, events', keys)
  {
    hide Encoding;
    hide Fits;
    hide LastPut;
    forall k | LastPut(events', k).Some? ensures k in keys && HoldsLast(cfg, d, events', k) {
      assert LastPut(events, k).Some? && HoldsLast(cfg, d, events, k);
    }
  }

  lemma HeldIsFound(cfg: Config, d: Directory, events: seq<Event>, key: string)
    requires LastPut(events, key).Some? && HoldsLast(cfg, d, events, key)
    ensures var v := LastPut(events, key).value;
            DiskGet(cfg.hash, d, key) == Some(v.(expiry := DiskExpiry(v.expiry)))
  {
    hide Encoding;
    hide Decoding;
    hide Fits;
    hide LastPut;
    var e := EntryOf(key, LastPut(events, key).value);
    DecodeOfEncode(e, []);
    assert Encoding(e) + [] == Encoding(e);
  }

  /**
   The disk tier is there to survive restarts: while it has room for the keys put, and no two of them
   collide, a lookup after any number of restarts finds the last put of its key, and misses only a key
   never put. `FullDirectoryForgets` shows that there is no more room than that.
   */
  lemma FoundAfterRestarts(cfg: Config, states: seq<State>, events: seq<Event>, i: nat)
    requires Run(cfg, states, events) && Storable(events)
    requires RoomFor(cfg, PutKeys(events)) && !Collide(cfg.hash, PutKeys(events))
    requires i < |events| && events[i].Look? && states[i].disk.Some?
    ensures var result, now := events[i].result, events[i].now;
            match LastPut(events[..i], events[i].key)
            case None => result == Miss
            case Some(v) =>
              Answers(result, v.response, v.expiry, now) || Answers(result, v.response, DiskExpiry(v.expiry), now)
  {
    hide LastPut;
    hide DiskGet;
    hide Inserted;
    hide Collide;
    RunAgrees(cfg, states, events, i);
    var s, key := states[i], events[i].key;
    assert Step(cfg, s, events[i], states[i + 1]);
    DiskGetAgrees(cfg, s.disk.value, events[..i], key);
    if LastPut(events[..i], key).Some? {
      FittingRunIsComplete(cfg, states, events, i);
      HeldIsFound(cfg, s.disk.value, events[..i], key);
    }
  }

  // ---------- A full directory forgets ----------

  predicate Distinct<T(==)>(xs: seq<T>) {
    forall i, j | 0 <= i < j < |xs| :: xs[i] != xs[j]
  }

  function Hashes(cfg: Config, keys: seq<string>): (r: seq<nat>)
    ensures |r| == |keys| && forall i | 0 <= i < |keys| :: r[i] == cfg.hash(keys[i])
  {
    seq(|keys|, i requires 0 <= i < |keys| => cfg.hash(keys[i]))
  }

  /** The state after each of the keys has been put once, in order, one tick apart. */
  function Filled(cfg: Config, keys: seq<string>, v: Stored): State {
    if keys == [] then State(map[], Some(map[]))
    else
      var n := |keys| - 1;
      var before := Filled(cfg, keys[..n], v);
      State(before.memory[keys[n] := v],
            if before.disk.None? then None else Some(Published(cfg, before.disk.value, EntryOf(keys[n], v), n)))
  }

  lemma {:induction false} FilledMemory(cfg: Config, keys: seq<string>, v: Stored)
    requires Distinct(keys)
    ensures var m := Filled(cfg, keys, v).memory;
            |m| == |keys| && (forall k :: k in m <==> k in keys) && forall k | k in m :: m[k] == v
  {
    hide Published;
    if keys != [] {
      var n := |keys| - 1;
      var before := Filled(cfg, keys[..n], v).memory;
      FilledMemory(cfg, keys[..n], v);
      assert keys == keys[..n] + [keys[n]];
      assert Filled(cfg, keys, v).memory.Keys == before.Keys + {keys[n]};
    }
  }

  /** The files of the keys put so far, each as old as its place among them. */
  ghost predicate FilesInOrder(d: Directory, hashes: seq<nat>) {
    && |EntryFiles(d)| == |hashes|
    && (forall i | 0 <= i < |hashes| :: EntryFile(hashes[i]) in d && d[EntryFile(hashes[i])].modified == i)
    && forall n | n in EntryFiles(d) :: n.hash in hashes
  }

  lemma FilesInOrderSnoc(d: Directory, hashes: seq<nat>, h: nat, d': Directory)
    requires FilesInOrder(d, hashes) && h !in hashes
    requires EntryFiles(d') == EntryFiles(d) + {EntryFile(h)}
    requires EntryFile(h) in d' && d'[EntryFile(h)].modified == |hashes|
    requires forall n | n in d && n.EntryFile? && n != EntryFile(h) :: n in d' && d'[n] == d[n]
    ensures FilesInOrder(d', hashes + [h])
  {
    assert EntryFile(h) !in EntryFiles(d);
    forall i | 0 <= i < |hashes| ensures EntryFile(hashes[i]) in d' && d'[EntryFile(hashes[i])].modified == i {
      assert EntryFile(hashes[i]) in d && hashes[i] in hashes;
    }
  }

  lemma {:induction false} FilledDisk(cfg: Config, keys: seq<string>, v: Stored)
    requires Distinct(Hashes(cfg, keys))
    ensures var disk := Filled(cfg, keys, v).disk; disk.Some? && FilesInOrder(disk.value, Hashes(cfg, keys))
  {
    hide Encoding;
    if keys == [] {
      assert EntryFiles(Filled(cfg, keys, v).disk.value) == {};
    } else {
      hide FilesInOrder;
      hide Published;
      var n := |keys| - 1;
      assert Hashes(cfg, keys) == Hashes(cfg, keys[..n]) + [cfg.hash(keys[n])];
      DistinctSnoc(Hashes(cfg, keys[..n]), cfg.hash(keys[n]));
      FilledDisk(cfg, keys[..n], v);
      var before := Filled(cfg, keys[..n], v).disk.value;
      var d' := Published(cfg, before, EntryOf(keys[n], v), n);
      PublishedKeeps(cfg, before, EntryOf(keys[n], v), n);
      FilesInOrderSnoc(before, Hashes(cfg, keys[..n]), cfg.hash(keys[n]), d');
    }
  }

  lemma DistinctSnoc<T>(xs: seq<T>, x: T)
    requires Distinct(xs + [x])
    ensures Distinct(xs) && x !in xs
  {
    assert (xs + [x])[|xs|] == x;
    forall i | 0 <= i < |xs| ensures xs[i] != x {
      assert (xs + [x])[i] == xs[i];
    }
    forall i, j | 0 <= i < j < |xs| ensures xs[i] != xs[j] {
      assert (xs + [x])[i] == xs[i] && (xs + [x])[j] == xs[j];
    }
  }

  lemma DistinctKeys(cfg: Config, keys: seq<string>)
    requires Distinct(Hashes(cfg, keys))
    ensures Distinct(keys)
  {
    forall i, j | 0 <= i < j < |keys| ensures keys[i] != keys[j] {
      assert Hashes(cfg, keys)[i] != Hashes(cfg, keys)[j];
    }
  }

  lemma FilledFacts(cfg: Config, keys: seq<string>, v: Stored)
    requires Distinct(Hashes(cfg, keys))
    ensures var s := Filled(cfg, keys, v);
            && s.disk.Some? && |s.memory| == |keys| && (forall k :: k in s.memory <==> k in keys)
            && FilesInOrder(s.disk.value, Hashes(cfg, keys))
  {
    hide *;
    DistinctKeys(cfg, keys);
    FilledMemory(cfg, keys, v);
    FilledDisk(cfg, keys, v);
  }

  lemma FillStep(cfg: Config, keys: seq<string>, v: Stored)
    requires 1 <= |keys| <= cfg.maxEntries && Distinct(Hashes(cfg, keys))
    ensures var n := |keys| - 1;
            Step(cfg, Filled(cfg, keys[..n], v), Put(keys[n], v), Filled(cfg, keys, v))
  {
    hide Encoding;
    hide Published;
    var n := |keys| - 1;
    var before := Filled(cfg, keys[..n], v);
    assert Hashes(cfg, keys[..n]) == Hashes(cfg, keys)[..n];
    FilledFacts(cfg, keys[..n], v);
    assert Evicted(cfg.maxEntries, before.disk.value, before.disk.value);
  }

  function FillEvents(keys: seq<string>, v: Stored): (r: seq<Event>)
    ensures |r| == |keys| && forall i | 0 <= i < |keys| :: r[i] == Put(keys[i], v)
  {
    seq(|keys|, i requires 0 <= i < |keys| => Put(keys[i], v))
  }

  lemma {:induction false} FillRun(cfg: Config, keys: seq<string>, v: Stored) returns (states: seq<State>)
    requires |keys| <= cfg.maxEntries && cfg.maxEntries >= 1 && Distinct(Hashes(cfg, keys))
    ensures Run(cfg, states, FillEvents(keys, v)) && |states| == |keys| + 1 && states[|keys|] == Filled(cfg, keys, v)
  {
    hide Step;
    if keys == [] {
      states := [Filled(cfg, keys, v)];
    } else {
      hide Filled;
      var n := |keys| - 1;
      assert Hashes(cfg, keys[..n]) == Hashes(cfg, keys)[..n];
      states := FillRun(cfg, keys[..n], v);
      FillStep(cfg, keys, v);
      states := states + [Filled(cfg, keys, v)];
      assert FillEvents(keys, v) == FillEvents(keys[..n], v) + [Put(keys[n], v)];
    }
  }

  lemma RunExtends(cfg: Config, states: seq<State>, events: seq<Event>, ev: Event, s: State)
    requires Run(cfg, states, events) && Step(cfg, states[|events|], ev, s)
    ensures Run(cfg, states + [s], events + [ev]) && |states + [s]| == |events + [ev]| + 1
  {
    hide Step;
  }

  lemma FirstIsOldest(d: Directory, hashes: seq<nat>)
    requires FilesInOrder(d, hashes) && hashes != []
    ensures Oldest(ModifiedTimes(d), EntryFile(hashes[0]))
  {
    forall n | n in ModifiedTimes(d) ensures d[EntryFile(hashes[0])].modified <= d[n].modified {
      assert n in EntryFiles(d);
      var i :| 0 <= i < |hashes| && hashes[i] == n.hash;
      assert n == EntryFile(hashes[i]);
    }
  }

  /** Putting the newest key again makes the full directory give up the file of the oldest one. */
  lemma ReplacingEvicts(cfg: Config, keys: seq<string>, v: Stored) returns (s: State)
    requires |keys| == cfg.maxEntries >= 2 && Distinct(Hashes(cfg, keys))
    ensures Step(cfg, Filled(cfg, keys, v), Put(keys[|keys| - 1], v), s)
    ensures s.disk.Some? && EntryFile(cfg.hash(keys[0])) !in s.disk.value
  {
    hide Encoding;
    hide Filled;
    hide Published;
    var full, last := Filled(cfg, keys, v), keys[|keys| - 1];
    FilledFacts(cfg, keys, v);
    var d, oldest := full.disk.value, EntryFile(cfg.hash(keys[0]));
    FirstIsOldest(d, Hashes(cfg, keys));
    assert |EntryFiles(d)| == cfg.maxEntries;
    assert Hashes(cfg, keys)[0] != Hashes(cfg, keys)[|keys| - 1];
    hide FilesInOrder;
    hide Oldest;
    hide Distinct;
    assert Evicted(cfg.maxEntries, d, d - {oldest});
    var d' := Published(cfg, d - {oldest}, EntryOf(last, v), |keys|);
    PublishedKeeps(cfg, d - {oldest}, EntryOf(last, v), |keys|);
    assert oldest !in EntryFiles(d');
    s := State(full.memory[last := v], Some(d'));
  }

  /** Each key put once, the last one again, and then a restart and a lookup of the first one. */
  function Forgetting(keys: seq<string>, v: Stored): seq<Event>
    requires keys != []
  {
    FillEvents(keys, v) + [Put(keys[|keys| - 1], v)] + [Restart]
  }

  lemma ForgettingRun(cfg: Config, keys: seq<string>, v: Stored, now: Time) returns (states: seq<State>)
    requires |keys| == cfg.maxEntries >= 2 && Distinct(Hashes(cfg, keys))
    ensures Run(cfg, states, Forgetting(keys, v) + [Look(keys[0], now, Miss)])
  {
    hide Step;
    hide Filled;
    hide Run;
    hide Distinct;
    var last, fill := keys[|keys| - 1], FillEvents(keys, v);
    states := FillRun(cfg, keys, v);
    var s := ReplacingEvicts(cfg, keys, v);
    RunExtends(cfg, states, fill, Put(last, v), s);
    states := states + [s];
    var lost := s.(memory := map[]);
    RestartStep(cfg, s);
    RunExtends(cfg, states, fill + [Put(last, v)], Restart, lost);
    states := states + [lost];
    LostStep(cfg, lost, keys[0], now);
    RunExtends(cfg, states, Forgetting(keys, v), Look(keys[0], now, Miss), lost);
    states := states + [lost];
  }

  lemma RestartStep(cfg: Config, s: State)
    ensures Step(cfg, s, Restart, s.(memory := map[]))
  {
  }

  lemma LostStep(cfg: Config, s: State, key: string, now: Time)
    requires s.memory == map[] && s.disk.Some? && EntryFile(cfg.hash(key)) !in s.disk.value
    ensures Step(cfg, s, Look(key, now, Miss), s)
  {
  }

  lemma ForgettingPuts(keys: seq<string>, v: Stored, now: Time)
    requires keys != []
    ensures var events := Forgetting(keys, v) + [Look(keys[0], now, Miss)];
            && (forall k :: k in PutKeys(events) <==> k in keys)
            && forall ev | ev in events && ev.Put? :: ev.v == v && ev.key in keys
  {
    var events := Forgetting(keys, v) + [Look(keys[0], now, Miss)];
    forall k | k in keys ensures k in PutKeys(events) {
      var i :| 0 <= i < |keys| && keys[i] == k;
      assert events[i] == Put(k, v);
    }
  }

  lemma {:induction false} LastOfFill(keys: seq<string>, v: Stored, i: nat)
    requires i < |keys|
    ensures LastPut(FillEvents(keys, v), keys[i]) == Some(v)
  {
    var n := |keys| - 1;
    assert FillEvents(keys, v) == FillEvents(keys[..n], v) + [Put(keys[n], v)];
    LastPutSnoc(FillEvents(keys[..n], v), Put(keys[n], v), keys[i]);
    if keys[i] != keys[n] {
      LastOfFill(keys[..n], v, i);
    }
  }

  /**
   At the limit `FoundAfterRestarts` is false, for every limit of at least two, every hash and every
   choice of keys it does not confuse: put each once, the last one again, and restart. The first
   key is lost, though no more keys were put than the cache may hold.
   */
  lemma FullDirectoryForgets(cfg: Config, keys: seq<string>, v: Stored, now: Time)
    requires |keys| == cfg.maxEntries >= 2 && Distinct(Hashes(cfg, keys))
    requires forall k | k in keys :: Fits(EntryOf(k, v))
    ensures exists states: seq<State>, events: seq<Event> ::
              && Run(cfg, states, events + [Look(keys[0], now, Miss)])
              && Storable(events + [Look(keys[0], now, Miss)])
              && (forall k :: k in PutKeys(events + [Look(keys[0], now, Miss)]) <==> k in keys)
              && LastPut(events, keys[0]) == Some(v)
  {
    hide Run;
    hide Fits;
    hide LastPut;
    var states := ForgettingRun(cfg, keys, v, now);
    ForgettingPuts(keys, v, now);
    var fill, last := FillEvents(keys, v), Put(keys[|keys| - 1], v);
    LastPutSnoc(fill + [last], Restart, keys[0]);
    LastPutSnoc(fill, last, keys[0]);
    LastOfFill(keys, v, 0);
    assert Storable(Forgetting(keys, v) + [Look(keys[0], now, Miss)]);
  }

  // ---------- Crashes ----------

  /** Where a disk put stopped: the crash keeps everything done before it. */
  datatype Progress = NotStarted | AfterEvict | InWrite(written: nat) | BeforeRename | Completed

  function Torn(cfg: Config, d: Directory, e: Entry, modified: Time, written: nat): Directory
    requires written <= |Encoding(e)|
  {
    d[TempFile(cfg.hash(e.key)) := File(modified, Encoding(e)[..written])]
  }

  ghost predicate CrashedPut(cfg: Config, d: Directory, e: Entry, p: Progress, d': Directory) {
    match p
    case NotStarted => d' == d
    case AfterEvict => Evicted(cfg.maxEntries, d, d')
    case InWrite(n) => n <= |Encoding(e)| &&
      exists evicted, modified :: Evicted(cfg.maxEntries, d, evicted) && d' == Torn(cfg, evicted, e, modified, n)
    case BeforeRename =>
      exists evicted, modified ::
        Evicted(cfg.maxEntries, d, evicted) && d' == Torn(cfg, evicted, e, modified, |Encoding(e)|)
    case Completed => DiskPut(cfg, d, e, d')
  }

  lemma PublishedGet(cfg: Config, d: Directory, e: Entry, modified: Time, key: string)
    requires Fits(e)
    ensures DiskGet(cfg.hash, Published(cfg, d, e, modified), key)
         == if key == e.key then Some(Stored(DiskExpiry(e.expiry), e.response))
            else if cfg.hash(key) == cfg.hash(e.key) then None
            else DiskGet(cfg.hash, d, key)
  {
    hide Encoding;
    hide Decoding;
    hide Fits;
    DecodeOfEncode(e, []);
    assert Encoding(e) + [] == Encoding(e);
  }

  /** The entry file a put loses on its way, if any: an oldest one, only when full, only once evicting began. */
  ghost predicate LostTo(cfg: Config, d: Directory, p: Progress, lost: Option<nat>) {
    match lost
    case None => p == NotStarted || |EntryFiles(d)| < cfg.maxEntries
    case Some(h) =>
      p != NotStarted && |EntryFiles(d)| >= cfg.maxEntries && Oldest(ModifiedTimes(d), EntryFile(h))
  }

  /** What each key reads as after a put of `e` that got as far as `p` and lost one hash. */
  function ReadAfter(cfg: Config, d: Directory, e: Entry, p: Progress, lost: Option<nat>, key: string): Option<Stored> {
    if p == Completed && cfg.hash(key) == cfg.hash(e.key) then
      if key == e.key then Some(Stored(DiskExpiry(e.expiry), e.response)) else None
    else if lost == Some(cfg.hash(key)) then None
    else DiskGet(cfg.hash, d, key)
  }

  lemma EvictedGet(cfg: Config, d: Directory, evicted: Directory) returns (lost: Option<nat>)
    requires cfg.maxEntries >= 1 && Evicted(cfg.maxEntries, d, evicted)
    ensures lost.Some? <==> |EntryFiles(d)| >= cfg.maxEntries
    ensures lost.Some? ==> Oldest(ModifiedTimes(d), EntryFile(lost.value))
    ensures forall key :: DiskGet(cfg.hash, evicted, key)
                       == if lost == Some(cfg.hash(key)) then None else DiskGet(cfg.hash, d, key)
  {
    hide Decoding;
    lost := None;
    if |EntryFiles(d)| >= cfg.maxEntries {
      var victim :| Oldest(ModifiedTimes(d), victim) && evicted == d - {victim};
      lost := Some(victim.hash);
    }
  }

  lemma TornGet(cfg: Config, d: Directory, e: Entry, modified: Time, written: nat, key: string)
    requires written <= |Encoding(e)|
    ensures DiskGet(cfg.hash, Torn(cfg, d, e, modified, written), key) == DiskGet(cfg.hash, d, key)
  {
    hide Encoding;
    hide Decoding;
  }

  /**
   A disk put is all or nothing: wherever it stops, it has lost no file, or one oldest file of a full
   directory; only a completed put changes what its own hash reads as, and then to the new entry
   alone; and every other key reads exactly as before.
   */
  lemma CrashAtomic(cfg: Config, d: Directory, e: Entry, p: Progress, d': Directory)
    requires cfg.maxEntries >= 1 && Fits(e) && CrashedPut(cfg, d, e, p, d')
    ensures exists lost :: LostTo(cfg, d, p, lost)
                           && forall key :: DiskGet(cfg.hash, d', key) == ReadAfter(cfg, d, e, p, lost, key)
  {
    hide Encoding;
    hide Decoding;
    hide Fits;
    hide Published;
    hide DiskGet;
    hide Torn;
    hide Evicted;
    match p {
      case NotStarted =>
        assert LostTo(cfg, d, p, None);
      case AfterEvict =>
        var lost := EvictedGet(cfg, d, d');
        assert LostTo(cfg, d, p, lost);
      case InWrite(n) =>
        var evicted, modified :| Evicted(cfg.maxEntries, d, evicted) && d' == Torn(cfg, evicted, e, modified, n);
        var lost := EvictedGet(cfg, d, evicted);
        assert LostTo(cfg, d, p, lost);
        forall key ensures DiskGet(cfg.hash, d', key) == ReadAfter(cfg, d, e, p, lost, key) {
          TornGet(cfg, evicted, e, modified, n, key);
        }
      case BeforeRename =>
        var evicted, modified :| Evicted(cfg.maxEntries, d, evicted)
                                 && d' == Torn(cfg, evicted, e, modified, |Encoding(e)|);
        var lost := EvictedGet(cfg, d, evicted);
        assert LostTo(cfg, d, p, lost);
        forall key ensures DiskGet(cfg.hash, d', key) == ReadAfter(cfg, d, e, p, lost, key) {
          TornGet(cfg, evicted, e, modified, |Encoding(e)|, key);
        }
      case Completed =>
        var evicted, modified :| Evicted(cfg.maxEntries, d, evicted) && d' == Published(cfg, evicted, e, modified);
        var lost := EvictedGet(cfg, d, evicted);
        assert LostTo(cfg, d, p, lost);
        forall key ensures DiskGet(cfg.hash, d', key) == ReadAfter(cfg, d, e, p, lost, key) {
          PublishedGet(cfg, evicted, e, modified, key);
        }
    }
  }

  /** A history of disk puts by one writer, each of which may be cut short by a crash and restart. */
  datatype Attempt = Attempt(entry: Entry, progress: Progress)

  ghost predicate CrashRun(cfg: Config, dirs: seq<Directory>, attempts: seq<Attempt>) {
    && cfg.maxEntries >= 1
    && |dirs| == |attempts| + 1 && dirs[0] == map[]
    && (forall a | a in attempts :: Fits(a.entry))
    && forall i | 0 <= i < |attempts| ::
         CrashedPut(cfg, dirs[i], attempts[i].entry, attempts[i].progress, dirs[i + 1])
  }

  /**
   After any number of puts and crashes a key reads as nothing, or as one complete entry that a
   finished put stored under exactly that key, and no later finished put of the key replaced.
   */
  lemma {:induction false} CrashSafe(cfg: Config, dirs: seq<Directory>, attempts: seq<Attempt>, n: nat, key: string)
    requires CrashRun(cfg, dirs, attempts) && n <= |attempts|
    ensures var r := DiskGet(cfg.hash, dirs[n], key);
            r.Some? ==> exists i | 0 <= i < n ::
              && attempts[i].entry.key == key && attempts[i].progress == Completed
              && r.value == Stored(DiskExpiry(attempts[i].entry.expiry), attempts[i].entry.response)
              && forall j | i < j < n :: attempts[j].entry.key != key || attempts[j].progress != Completed
  {
    hide DiskGet;
    hide CrashedPut;
    hide Fits;
    if n == 0 {
      EmptyDirectoryGet(cfg, key);
    } else {
      var a := attempts[n - 1];
      CrashSafe(cfg, dirs, attempts, n - 1, key);
      CrashAtomic(cfg, dirs[n - 1], a.entry, a.progress, dirs[n]);
      if DiskGet(cfg.hash, dirs[n], key).Some? && a.entry.key == key && a.progress == Completed {
        assert attempts[n - 1].entry.key == key;
      }
    }
  }

  lemma EmptyDirectoryGet(cfg: Config, key: string)
    ensures DiskGet(cfg.hash, map[], key) == None
  {
  }

  /** Crashes included, the directory never holds more entry files than allowed. */
  lemma {:induction false} CrashKeepsBound(cfg: Config, dirs: seq<Directory>, attempts: seq<Attempt>, n: nat)
    requires CrashRun(cfg, dirs, attempts) && n <= |attempts|
    ensures |EntryFiles(dirs[n])| <= cfg.maxEntries
  {
    if n == 0 {
      assert EntryFiles(dirs[0]) == {};
    } else {
      CrashKeepsBound(cfg, dirs, attempts, n - 1);
      PutKeepsBound(cfg, dirs[n - 1], attempts[n - 1].entry, attempts[n - 1].progress, dirs[n]);
    }
  }

  lemma PutKeepsBound(cfg: Config, d: Directory, e: Entry, p: Progress, d': Directory)
    requires cfg.maxEntries >= 1 && |EntryFiles(d)| <= cfg.maxEntries && CrashedPut(cfg, d, e, p, d')
    ensures |EntryFiles(d')| <= cfg.maxEntries
  {
    hide Encoding;
    hide Evicted;
    hide Published;
    match p {
      case NotStarted =>
      case AfterEvict =>
        EvictedFacts(cfg.maxEntries, d, d');
      case InWrite(n) =>
        var evicted, modified :| Evicted(cfg.maxEntries, d, evicted) && d' == Torn(cfg, evicted, e, modified, n);
        EvictedFacts(cfg.maxEntries, d, evicted);
        assert EntryFiles(d') == EntryFiles(evicted);
      case BeforeRename =>
        var evicted, modified :| Evicted(cfg.maxEntries, d, evicted)
                                 && d' == Torn(cfg, evicted, e, modified, |Encoding(e)|);
        EvictedFacts(cfg.maxEntries, d, evicted);
        assert EntryFiles(d') == EntryFiles(evicted);
      case Completed =>
        var evicted, modified :| Evicted(cfg.maxEntries, d, evicted) && d' == Published(cfg, evicted, e, modified);
        EvictedFacts(cfg.maxEntries, d, evicted);
        PublishedFacts(cfg, evicted, e, modified);
    }
  }
}
