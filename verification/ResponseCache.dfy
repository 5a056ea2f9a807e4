/**
 The cache objects themselves. Each method is tied to one step of the state machine in
 `CacheStore`, whose runs carry the main results.
 */
module ResponseCache {
  import opened Base
  import opened Codec
  import opened CacheStore

  /** `min_by_key` over a map: some key with the smallest time. */
  method MinByTime<K(==)>(times: map<K, Time>) returns (k: K)
    requires |times| > 0
    ensures k in times && forall x | x in times :: times[k] <= times[x]
  {
    var rest := times.Keys;
    assert |rest| > 0;
    k :| k in rest;
    rest := rest - {k};
    while rest != {}
      invariant rest <= times.Keys && k in times
      invariant forall x | x in times.Keys - rest :: times[k] <= times[x]
      decreases rest
    {
      var x :| x in rest;
      if times[x] < times[k] {
        k := x;
      }
      rest := rest - {x};
    }
  }

  /** The disk tier: `files` stands for the directory, owned by this object. */
  class DiskStore {
    const maxEntries: nat
    const hash: string -> nat
    var files: Directory

    constructor (maxEntries: nat, hash: string -> nat, found: Directory)
      ensures this.maxEntries == (if maxEntries < 1 then 1 else maxEntries)
      ensures this.hash == hash && files == found
    {
      this.maxEntries := if maxEntries < 1 then 1 else maxEntries;
      this.hash := hash;
      files := found;
    }

    /** `panicked` stands for the panic of adding the stored seconds to the epoch. */
    method Get(key: string) returns (r: Option<Stored>, panicked: bool)
      ensures r == DiskGet(hash, files, key) && panicked == DiskPanics(hash, files, key)
    {
      var name := EntryFile(hash(key));
      if name !in files {
        return None, false;
      }
      var decoded := Decode(files[name].bytes);
      match decoded {
        case Complete(e, _) =>
          if e.key == key {
            return Some(Stored(e.expiry, e.response)), false;
          }
          return None, false;
        case Truncated => return None, false;
        case ClockOverflow => return None, true;
      }
    }

    method Evict()
      modifies this
      ensures Evicted(maxEntries, old(files), files)
    {
      var candidates := ModifiedTimes(files);
      assert candidates.Keys == EntryFiles(files);
      if |EntryFiles(files)| >= maxEntries && |EntryFiles(files)| > 0 {
        var oldest := MinByTime(candidates);
        files := files - {oldest};
      }
    }

    /** `clock` is the modification time the file system gives the new file. */
    method Put(key: string, v: Stored, clock: Time)
      modifies this
      ensures DiskPut(Config(maxEntries, hash), old(files), EntryOf(key, v), files)
    {
      Evict();
      ghost var evicted := files;
      var tmp, path := TempFile(hash(key)), EntryFile(hash(key));
      var bytes := Encode(EntryOf(key, v));
      files := files[tmp := File(clock, bytes)];
      files := Renamed(files, tmp, path);
      assert files == Published(Config(maxEntries, hash), evicted, EntryOf(key, v), clock);
    }
  }

  class ResponseCache {
    const maxEntries: nat
    var entries: Memory
    const disk: DiskStore?

    ghost predicate Valid()
      reads this
    {
      maxEntries >= 1 && (disk != null ==> disk.maxEntries == maxEntries)
    }

    ghost function Repr(): set<object> {
      {this} + if disk == null then {} else {disk}
    }

    /** The abstract state both tiers stand for. */
    ghost function Now(): State
      reads this, Repr()
    {
      State(entries, if disk == null then None else Some(disk.files))
    }

    /** A cache without a disk tier ignores the hash. */
    ghost function Cfg(): Config {
      Config(maxEntries, if disk == null then _ => 0 else disk.hash)
    }

    constructor New(maxEntries: nat)
      ensures Valid() && Now() == State(map[], None)
      ensures this.maxEntries == (if maxEntries < 1 then 1 else maxEntries)
      ensures fresh(Repr())
    {
      this.maxEntries := if maxEntries < 1 then 1 else maxEntries;
      entries := map[];
      disk := null;
    }

    constructor WithDisk(maxEntries: nat, hash: string -> nat, found: Directory)
      ensures Valid() && Now() == State(map[], Some(found)) && Cfg().hash == hash
      ensures this.maxEntries == (if maxEntries < 1 then 1 else maxEntries)
      ensures fresh(Repr())
    {
      this.maxEntries := if maxEntries < 1 then 1 else maxEntries;
      entries := map[];
      disk := new DiskStore(maxEntries, hash, found);
    }

    method InsertMemory(key: string, v: Stored)
      requires Valid()
      modifies this
      ensures Valid() && Inserted(maxEntries, old(entries), key, v, entries)
    {
      if |entries| >= maxEntries && key !in entries {
        assert |Expiries(entries).Keys| == |entries.Keys| by {
          assert Expiries(entries).Keys == entries.Keys;
        }
        var oldest := MinByTime(Expiries(entries));
        entries := entries - {oldest};
      }
      entries := entries[key := v];
    }

    /** A lookup may refill memory from the disk tier; it never changes the disk tier. */
    method Lookup(key: string, now: Time) returns (r: Lookup)
      requires Valid()
      modifies this
      ensures Valid() && Step(Cfg(), old(Now()), Look(key, now, r), Now())
    {
      if key in entries {
        return Classify(entries[key], now);
      }
      if disk != null {
        var found, panicked := disk.Get(key);
        if panicked {
          return Panicked;
        }
        if found.Some? {
          InsertMemory(key, found.value);
          return Classify(found.value, now);
        }
      }
      return Miss;
    }

    method Put(key: string, v: Stored, clock: Time)
      requires Valid()
      modifies Repr()
      ensures Valid() && Step(Cfg(), old(Now()), CacheStore.Put(key, v), Now())
    {
      if disk != null {
        disk.Put(key, v, clock);
      }
      InsertMemory(key, v);
    }

    method Get(key: string, now: Time) returns (r: Option<Response>, panicked: bool)
      requires Valid()
      modifies this
      ensures Valid()
      ensures exists l :: Step(Cfg(), old(Now()), Look(key, now, l), Now())
                       && r == (if l.Fresh? then Some(l.response) else None) && panicked == l.Panicked?
    {
      var l := Lookup(key, now);
      match l {
        case Fresh(response) => r, panicked := Some(response), false;
        case Stale(_) => r, panicked := None, false;
        case Miss => r, panicked := None, false;
        case Panicked => r, panicked := None, true;
      }
    }
  }
}
