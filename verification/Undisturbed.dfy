/**
 One request with nothing in between: whatever pieces it reads and writes its files in, the steps of
 the interleaved machine from the beginning of a request to its end are one lookup, one decision and
 at most one put of the sequential cache. So the results about `CacheStore` are about this machine.
 */
module Undisturbed {
  import opened Base
  import opened Codec
  import opened Policy
  import opened CacheStore
  import opened ProxyMachine
  import opened ProxyFiles
  import opened Reaching
  import opened RequestFlow
  import Capture

  /** The sequential cache that a state of the machine stands for. */
  function Abs(s: Proxy): State {
    State(s.memory, Some(View(s)))
  }

  /** A request has been answered from the cache, or goes on to fetch. */
  predicate Resting(ph: Phase) {
    ph.Idle? || ph.Fetching?
  }

  /** No fault, no restart, no panic of the clock; and an eviction takes what `evict` would take. */
  ghost predicate Regular(cfg: Config, s: Proxy, a: Action, s': Proxy) {
    && a != DiskFault && a != Action.Restart && a != Abandon
    && (a.Evict? ==> Evicted(cfg.maxEntries, View(s), View(s')))
  }

  /** All steps of one request, from its beginning to its rest, with no step of another one. */
  ghost predicate Solo(cfg: Config, states: seq<Proxy>, turns: seq<Turn>, t: nat) {
    && |states| == |turns| + 1 && turns != [] && turns[0].action.Begin?
    && (forall i | 0 <= i < |turns| ::
          && turns[i].thread == t && Enabled(cfg, states[i], t, turns[i].action)
          && states[i + 1] == Apply(cfg, states[i], t, turns[i].action)
          && Regular(cfg, states[i], turns[i].action, states[i + 1]))
    && (forall i | 0 < i < |turns| :: !Resting(PhaseOf(states[i], t)))
    && Resting(PhaseOf(states[|turns|], t))
  }

  /** What happened so far, as the sequential cache sees it. */
  datatype Account = Account(
    hasTarget: bool, origin: Origin, clock: Time, found: Lookup, mid: State, evicted: Directory, modified: Time)

  const NOTHING_YET := Account(false, Unreachable, 0, Lookup.Miss, State(map[], None), map[], 0)

  /** What the origin has answered, and when. */
  function HeardAfter(before: (Origin, Time), a: Action): (Origin, Time) {
    match a
    case NotModified(clock) => (Unchanged, clock)
    case Modified(clock, headers, body) => (Changed(headers, body), clock)
    case RevalidationFailed => (Unreachable, before.1)
    case _ => before
  }

  function Heard(turns: seq<Turn>): (Origin, Time) {
    if turns == [] then (Unreachable, 0) else HeardAfter(Heard(turns[..|turns| - 1]), turns[|turns| - 1].action)
  }

  /** Whether there was a target to ask when the entry was found. */
  function TargetAfter(before: bool, a: Action): bool {
    match a
    case Probe(hasTarget) => hasTarget
    case Fill(hasTarget, _) => hasTarget
    case _ => before
  }

  function HadTarget(turns: seq<Turn>): bool {
    turns != [] && TargetAfter(HadTarget(turns[..|turns| - 1]), turns[|turns| - 1].action)
  }

  /** The account keeps what the step has brought. */
  predicate Noted(w: Account, a: Action, w': Account) {
    (w'.origin, w'.clock) == HeardAfter((w.origin, w.clock), a) && w'.hasTarget == TargetAfter(w.hasTarget, a)
  }

  predicate Faithful(w: Account, turns: seq<Turn>) {
    (w.origin, w.clock) == Heard(turns) && w.hasTarget == HadTarget(turns)
  }

  datatype Call = Call(l: Listener, key: string, now: Time)

  function Decision(c: Call, w: Account): Outcome {
    Decide(c.l, c.key, c.now, w.found, w.hasTarget, w.origin, w.clock)
  }

  ghost predicate LookedUp(cfg: Config, s0: Proxy, c: Call, w: Account) {
    Step(cfg, Abs(s0), Look(c.key, c.now, w.found), w.mid)
  }

  /** The lookup is done and has been decided to lead to this put and this reply. */
  ghost predicate Decided(cfg: Config, s0: Proxy, s: Proxy, c: Call, w: Account, p: PutRecord, reply: Option<Served>) {
    && LookedUp(cfg, s0, c, w) && w.mid.disk.Some?
    && Decision(c, w) == Outcome(reply, Some(p), None) && p.key == c.key
    && s.puts == s0.puts + [p] && s.served == s0.served && s.memory == w.mid.memory
  }

  ghost predicate Untouched(s0: Proxy, s: Proxy) {
    s.puts == s0.puts && s.served == s0.served
  }

  /** The temporary file holds what has been written so far, and nothing else has changed since the eviction. */
  ghost predicate PartWritten(cfg: Config, s: Proxy, w: Account, p: PutRecord, ino: nat, bytes: seq<byte>) {
    var tmp := TempFile(cfg.hash(p.key));
    && w.mid.disk.Some? && Evicted(cfg.maxEntries, w.mid.disk.value, w.evicted)
    && tmp in s.dir && s.dir[tmp] == ino && View(s) == w.evicted[tmp := File(w.modified, bytes)]
  }

  /** Done: the outcome is the decision's, and the cache is as the sequential one leaves it. */
  ghost predicate Finished(cfg: Config, s0: Proxy, s: Proxy, t: nat, c: Call, w: Account) {
    var o := Decision(c, w);
    && Staged(cfg, Abs(s0), Abs(s), c.l, c.key, c.now, w.hasTarget, w.origin, w.clock, w.found, w.mid, o)
    && s.puts == s0.puts + AsSeq(o.put)
    && s.served == s0.served + (if o.served.Some? then {o.served.value} else {})
    && PhaseOf(s, t) == if o.cacheKey.Some? then Fetching(o.cacheKey.value) else Idle
  }

  ghost predicate EvictingAt(cfg: Config, s0: Proxy, s: Proxy, c: Call, w: Account, p: PutRecord, reply: Option<Served>) {
    Decided(cfg, s0, s, c, w, p, reply) && w.mid == Abs(s)
  }

  ghost predicate OpeningAt(cfg: Config, s0: Proxy, s: Proxy, c: Call, w: Account, p: PutRecord, reply: Option<Served>) {
    Decided(cfg, s0, s, c, w, p, reply) && Evicted(cfg.maxEntries, w.mid.disk.value, View(s)) && w.evicted == View(s)
  }

  ghost predicate WritingAt(cfg: Config, s0: Proxy, s: Proxy, c: Call, w: Account, p: PutRecord, reply: Option<Served>,
                            ino: nat, bytes: seq<byte>)
  {
    Decided(cfg, s0, s, c, w, p, reply) && PartWritten(cfg, s, w, p, ino, bytes)
  }

  ghost predicate InsertingAt(cfg: Config, s0: Proxy, s: Proxy, c: Call, w: Account, p: PutRecord, reply: Option<Served>) {
    && Decided(cfg, s0, s, c, w, p, reply)
    && DiskPut(cfg, w.mid.disk.value, EntryOf(p.key, p.v), View(s))
  }

  /** How far the request has come, at each of its phases. */
  ghost predicate At(cfg: Config, s0: Proxy, s: Proxy, t: nat, c: Call, w: Account) {
    && Linked(s.dir, s.data)
    && match PhaseOf(s, t)
       case Probing(l, key, now) => Call(l, key, now) == c && Untouched(s0, s) && Abs(s) == Abs(s0)
       case Opening(l, key, now) =>
         Call(l, key, now) == c && Untouched(s0, s) && Abs(s) == Abs(s0) && key !in s.memory
       case Reading(l, key, now, ino, got, _) =>
         && Call(l, key, now) == c && Untouched(s0, s) && Abs(s) == Abs(s0) && key !in s.memory
         && EntryFile(cfg.hash(key)) in s.dir && s.dir[EntryFile(cfg.hash(key))] == ino && got <= s.data[ino].bytes
       case Filling(l, key, now, v, _) =>
         && Call(l, key, now) == c && Untouched(s0, s) && Abs(s) == Abs(s0) && key !in s.memory
         && DiskGet(cfg.hash, View(s), key) == Some(v)
       case Revalidating(l, key, now, hit) =>
         && Call(l, key, now) == c && Untouched(s0, s) && LookedUp(cfg, s0, c, w) && w.mid == Abs(s)
         && w.found == Stale(hit) && w.hasTarget && Etag(hit).Some?
       case PutEvicting(p, reply) => EvictingAt(cfg, s0, s, c, w, p, reply)
       case PutOpening(p, reply) => OpeningAt(cfg, s0, s, c, w, p, reply)
       case PutWriting(p, reply, ino, off) =>
         off < |FileOf(p)| && WritingAt(cfg, s0, s, c, w, p, reply, ino, FileOf(p)[..off])
       case PutRenaming(p, reply, ino) => WritingAt(cfg, s0, s, c, w, p, reply, ino, FileOf(p))
       case PutInserting(p, reply) => InsertingAt(cfg, s0, s, c, w, p, reply)
       case Idle => Finished(cfg, s0, s, t, c, w)
       case Fetching(_) => Finished(cfg, s0, s, t, c, w)
       case Capturing(_, _, _, _) => false
  }

  // ---------- The directory a state stands for ----------

  /** Creating a temporary file, emptying it or writing to it changes that one name. */
  lemma ViewOfTemp(s: Proxy, h: nat, ino: nat, file: File)
    requires Linked(s.dir, s.data)
    requires if TempFile(h) in s.dir then s.dir[TempFile(h)] == ino else ino !in s.data
    ensures var s' := s.(dir := s.dir[TempFile(h) := ino], data := s.data[ino := file]);
            Linked(s'.dir, s'.data) && View(s') == View(s)[TempFile(h) := file]
  {
    var s' := s.(dir := s.dir[TempFile(h) := ino], data := s.data[ino := file]);
    assert View(s').Keys == View(s)[TempFile(h) := file].Keys;
  }

  lemma ViewOfRename(s: Proxy, h: nat)
    requires Linked(s.dir, s.data) && TempFile(h) in s.dir
    ensures var s' := s.(dir := (s.dir - {TempFile(h)})[EntryFile(h) := s.dir[TempFile(h)]]);
            && Linked(s'.dir, s'.data) && TempFile(h) in View(s)
            && View(s') == Renamed(View(s), TempFile(h), EntryFile(h))
  {
    var s' := s.(dir := (s.dir - {TempFile(h)})[EntryFile(h) := s.dir[TempFile(h)]]);
    assert View(s').Keys == Renamed(View(s), TempFile(h), EntryFile(h)).Keys;
  }

  lemma ViewOfEntry(s: Proxy, name: Name)
    requires Linked(s.dir, s.data)
    ensures name in View(s) <==> name in s.dir
    ensures name in s.dir ==> View(s)[name] == s.data[s.dir[name]]
  {
  }

  lemma SameView(s: Proxy, s': Proxy)
    requires s'.dir == s.dir && s'.data == s.data
    ensures View(s') == View(s)
  {
  }

  // ---------- Lookups ----------

  lemma FoundFinishes(cfg: Config, s0: Proxy, s: Proxy, t: nat, c: Call, v: Stored, hasTarget: bool, w: Account)
    requires Linked(s.dir, s.data) && Untouched(s0, s)
    requires w.found == Classify(v, c.now) && w.hasTarget == hasTarget && w.mid == Abs(s) && LookedUp(cfg, s0, c, w)
    ensures At(cfg, s0, Found(s, t, c.l, c.key, c.now, v, hasTarget), t, c, w)
  {
    hide Step;
    hide Etag;
    hide Linked;
    hide View;
    hide Finished;
    hide StoredTtl;
    hide Captured;
    var s' := Found(s, t, c.l, c.key, c.now, v, hasTarget);
    SameView(s, s');
    if !PhaseOf(s', t).Revalidating? {
      hide At;
      NoPutAt(cfg, s0, s, t, c, w, s');
    }
  }

  lemma BeginAt(cfg: Config, s0: Proxy, t: nat, c: Call) returns (w: Account)
    requires Linked(s0.dir, s0.data) && Enabled(cfg, s0, t, Begin(c.l, c.key, c.now))
    ensures At(cfg, s0, Apply(cfg, s0, t, Begin(c.l, c.key, c.now)), t, c, w) && w == NOTHING_YET
  {
    w := NOTHING_YET;
  }

  lemma ProbeAt(cfg: Config, s0: Proxy, s: Proxy, t: nat, c: Call, w: Account, hasTarget: bool) returns (w': Account)
    requires At(cfg, s0, s, t, c, w) && Enabled(cfg, s, t, Probe(hasTarget))
    ensures At(cfg, s0, Apply(cfg, s, t, Probe(hasTarget)), t, c, w') && Noted(w, Probe(hasTarget), w')
  {
    hide Etag;
    hide Linked;
    var ph := PhaseOf(s, t);
    assert ph == Probing(c.l, c.key, c.now);
    if c.key in s.memory {
      w' := w.(hasTarget := hasTarget, found := Classify(s.memory[c.key], c.now), mid := Abs(s));
      assert LookedUp(cfg, s0, c, w');
      hide At;
      hide Found;
      hide LookedUp;
      FoundFinishes(cfg, s0, s, t, c, s.memory[c.key], hasTarget, w');
    } else {
      w' := w.(hasTarget := hasTarget);
    }
  }

  /** A lookup that ends without an entry: nothing there, or a file that panics. */
  lemma NotFoundAt(cfg: Config, s0: Proxy, s: Proxy, t: nat, c: Call, w: Account, s': Proxy) returns (w': Account)
    requires Linked(s.dir, s.data) && Untouched(s0, s) && Abs(s) == Abs(s0) && c.key !in s.memory
    requires DiskGet(cfg.hash, View(s), c.key) == None
    requires s' == Goto(s, t, if DiskPanics(cfg.hash, View(s), c.key) then Idle else Fetching(c.key))
    ensures At(cfg, s0, s', t, c, w') && w' == w.(found := w'.found, mid := w'.mid)
  {
    hide Linked;
    hide DiskGet;
    hide DiskPanics;
    var panics := DiskPanics(cfg.hash, View(s), c.key);
    w' := w.(found := if panics then Panicked else Lookup.Miss, mid := Abs(s));
    assert View(s') == View(s);
    assert Staged(cfg, Abs(s0), Abs(s'), c.l, c.key, c.now, w'.hasTarget, w'.origin, w'.clock, w'.found, w'.mid, Decision(c, w'));
  }

  lemma OpenFileAt(cfg: Config, s0: Proxy, s: Proxy, t: nat, c: Call, w: Account) returns (w': Account)
    requires At(cfg, s0, s, t, c, w) && Enabled(cfg, s, t, OpenFile)
    ensures At(cfg, s0, Apply(cfg, s, t, OpenFile), t, c, w') && Noted(w, OpenFile, w')
  {
    hide DiskPut;
    hide Step;
    hide Evicted;
    hide Decided;
    hide Finished;
    var s', name := Apply(cfg, s, t, OpenFile), EntryFile(cfg.hash(c.key));
    ViewOfEntry(s, name);
    hide Linked;
    if name in s.dir {
      w' := w;
      assert View(s') == View(s);
    } else {
      w' := NotFoundAt(cfg, s0, s, t, c, w, s');
    }
  }

  lemma ReadSomeAt(cfg: Config, s0: Proxy, s: Proxy, t: nat, c: Call, w: Account, n: nat)
    requires At(cfg, s0, s, t, c, w) && Enabled(cfg, s, t, ReadSome(n))
    ensures At(cfg, s0, Apply(cfg, s, t, ReadSome(n)), t, c, w)
  {
    hide Linked;
    hide Finished;
    var s' := Apply(cfg, s, t, ReadSome(n));
    assert View(s') == View(s);
  }

  /** What has been read is the file, so decoding it is what the sequential lookup does. */
  lemma AfterReadIsDiskGet(cfg: Config, s: Proxy, ph: Phase)
    requires Linked(s.dir, s.data) && ph.Reading?
    requires EntryFile(cfg.hash(ph.key)) in s.dir && s.dir[EntryFile(cfg.hash(ph.key))] == ph.ino
    requires s.data[ph.ino].bytes == ph.got
    ensures var found := DiskGet(cfg.hash, View(s), ph.key); var panics := DiskPanics(cfg.hash, View(s), ph.key);
            AfterRead(ph) == if found.Some? then Filling(ph.l, ph.key, ph.now, found.value, ph.seen)
                             else if panics then Idle else Fetching(ph.key)
  {
    hide Decoding;
    ViewOfEntry(s, EntryFile(cfg.hash(ph.key)));
  }

  lemma ReadEndAt(cfg: Config, s0: Proxy, s: Proxy, t: nat, c: Call, w: Account) returns (w': Account)
    requires At(cfg, s0, s, t, c, w) && Enabled(cfg, s, t, ReadEnd)
    ensures At(cfg, s0, Apply(cfg, s, t, ReadEnd), t, c, w') && Noted(w, ReadEnd, w')
  {
    hide AfterRead;
    hide DiskGet;
    hide DiskPanics;
    hide Finished;
    var ph, s' := PhaseOf(s, t), Apply(cfg, s, t, ReadEnd);
    assert ph.Reading? && ph.got == s.data[ph.ino].bytes;
    AfterReadIsDiskGet(cfg, s, ph);
    hide Linked;
    if DiskGet(cfg.hash, View(s), c.key).Some? {
      w' := w;
      assert View(s') == View(s);
    } else {
      w' := NotFoundAt(cfg, s0, s, t, c, w, s');
    }
  }

  /** The sequential lookup that finds the file's entry and refills memory with it. */
  lemma RefillStep(cfg: Config, s: Proxy, key: string, now: Time, v: Stored, memory: Memory)
    requires key !in s.memory && DiskGet(cfg.hash, View(s), key) == Some(v) && Inserted(cfg.maxEntries, s.memory, key, v, memory)
    ensures Step(cfg, Abs(s), Look(key, now, Classify(v, now)), Abs(s.(memory := memory)))
  {
    NoPanicIfFound(cfg, View(s), key);
    SameView(s, s.(memory := memory));
    hide View;
    hide DiskGet;
    hide DiskPanics;
    hide Inserted;
  }

  lemma FillAt(cfg: Config, s0: Proxy, s: Proxy, t: nat, c: Call, w: Account, hasTarget: bool, memory: Memory) returns (w': Account)
    requires At(cfg, s0, s, t, c, w) && Enabled(cfg, s, t, Fill(hasTarget, memory))
    ensures At(cfg, s0, Apply(cfg, s, t, Fill(hasTarget, memory)), t, c, w') && Noted(w, Fill(hasTarget, memory), w')
  {
    hide Finished;
    hide Inserted;
    hide Linked;
    hide View;
    hide Step;
    hide Found;
    hide DiskGet;
    var ph, mid := PhaseOf(s, t), s.(memory := memory);
    w' := w.(hasTarget := hasTarget, found := Classify(ph.v, c.now), mid := Abs(mid));
    RefillStep(cfg, s, c.key, c.now, ph.v, memory);
    FoundFinishes(cfg, s0, mid, t, c, ph.v, hasTarget, w');
    hide At;
  }

  lemma NoPanicIfFound(cfg: Config, d: Directory, key: string)
    requires DiskGet(cfg.hash, d, key).Some?
    ensures !DiskPanics(cfg.hash, d, key)
  {
    hide Decoding;
  }

  // ---------- The origin's answer ----------

  /** A revalidation that starts a put. */
  lemma StartPutAt(cfg: Config, s0: Proxy, s: Proxy, t: nat, c: Call, w: Account, p: PutRecord, reply: Option<Served>)
    requires Linked(s.dir, s.data) && Untouched(s0, s) && LookedUp(cfg, s0, c, w) && w.mid == Abs(s)
    requires Decision(c, w) == Outcome(reply, Some(p), None) && p.key == c.key
    ensures At(cfg, s0, StartPut(s, t, p, reply), t, c, w)
  {
    hide Step;
    hide Decide;
    hide Linked;
    assert View(StartPut(s, t, p, reply)) == View(s);
  }

  /** A revalidation that stores nothing. */
  lemma NoPutAt(cfg: Config, s0: Proxy, s: Proxy, t: nat, c: Call, w: Account, s': Proxy)
    requires Linked(s.dir, s.data) && Untouched(s0, s) && LookedUp(cfg, s0, c, w) && w.mid == Abs(s)
    requires var o := Decision(c, w);
             && o.put == None
             && s' == Reply(Goto(s, t, if o.cacheKey.Some? then Fetching(o.cacheKey.value) else Idle), o.served)
    ensures At(cfg, s0, s', t, c, w)
  {
    hide Step;
    hide Decide;
    hide Linked;
    hide View;
    SameView(s, s');
    assert Resting(PhaseOf(s', t));
    FinishedAt(cfg, s0, s', t, c, w);
  }

  lemma OriginAt(cfg: Config, s0: Proxy, s: Proxy, t: nat, c: Call, w: Account, a: Action) returns (w': Account)
    requires At(cfg, s0, s, t, c, w) && Enabled(cfg, s, t, a)
    requires a.NotModified? || a.Modified? || a.RevalidationFailed?
    ensures At(cfg, s0, Apply(cfg, s, t, a), t, c, w') && Noted(w, a, w')
  {
    hide Step;
    hide Etag;
    hide StoredTtl;
    hide Captured;
    hide Writable;
    hide Linked;
    hide StartPut;
    var ph := PhaseOf(s, t);
    match a {
      case NotModified(clock) => w' := w.(origin := Unchanged, clock := clock);
      case Modified(clock, headers, body) => w' := w.(origin := Changed(headers, body), clock := clock);
      case RevalidationFailed => w' := w.(origin := Unreachable);
    }
    assert LookedUp(cfg, s0, c, w');
    hide LookedUp;
    hide At;
    var o := Decision(c, w');
    if o.put.Some? {
      StartPutAt(cfg, s0, s, t, c, w', o.put.value, o.served);
    } else {
      NoPutAt(cfg, s0, s, t, c, w', Apply(cfg, s, t, a));
    }
  }

  // ---------- Puts ----------

  lemma DecidedElsewhere(cfg: Config, s0: Proxy, s: Proxy, s': Proxy, c: Call, w: Account, w': Account, p: PutRecord, reply: Option<Served>)
    requires Decided(cfg, s0, s, c, w, p, reply)
    requires s'.puts == s.puts && s'.served == s.served && s'.memory == s.memory
    requires w'.(evicted := w.evicted, modified := w.modified) == w
    ensures Decided(cfg, s0, s', c, w', p, reply)
  {
    hide Step;
    hide Decide;
  }

  lemma FromAt(cfg: Config, s0: Proxy, s: Proxy, t: nat, c: Call, w: Account)
    requires At(cfg, s0, s, t, c, w) && t in s.threads
    ensures Linked(s.dir, s.data)
    ensures var ph := s.threads[t];
            && (ph.PutEvicting? ==> EvictingAt(cfg, s0, s, c, w, ph.p, ph.reply))
            && (ph.PutOpening? ==> OpeningAt(cfg, s0, s, c, w, ph.p, ph.reply))
            && (ph.PutWriting? ==> ph.off < |FileOf(ph.p)|
                                   && WritingAt(cfg, s0, s, c, w, ph.p, ph.reply, ph.ino, FileOf(ph.p)[..ph.off]))
            && (ph.PutRenaming? ==> WritingAt(cfg, s0, s, c, w, ph.p, ph.reply, ph.ino, FileOf(ph.p)))
            && (ph.PutInserting? ==> InsertingAt(cfg, s0, s, c, w, ph.p, ph.reply))
  {
    hide EvictingAt;
    hide OpeningAt;
    hide WritingAt;
    hide InsertingAt;
    hide Finished;
    hide FileOf;
    hide LookedUp;
    hide DiskGet;
  }

  lemma ToAt(cfg: Config, s0: Proxy, s: Proxy, t: nat, c: Call, w: Account, ph: Phase)
    requires Linked(s.dir, s.data) && PhaseOf(s, t) == ph
    requires ph.PutEvicting? || ph.PutOpening? || ph.PutWriting? || ph.PutRenaming? || ph.PutInserting?
    requires ph.PutEvicting? ==> EvictingAt(cfg, s0, s, c, w, ph.p, ph.reply)
    requires ph.PutOpening? ==> OpeningAt(cfg, s0, s, c, w, ph.p, ph.reply)
    requires ph.PutWriting? ==> ph.off < |FileOf(ph.p)|
                                && WritingAt(cfg, s0, s, c, w, ph.p, ph.reply, ph.ino, FileOf(ph.p)[..ph.off])
    requires ph.PutRenaming? ==> WritingAt(cfg, s0, s, c, w, ph.p, ph.reply, ph.ino, FileOf(ph.p))
    requires ph.PutInserting? ==> InsertingAt(cfg, s0, s, c, w, ph.p, ph.reply)
    ensures At(cfg, s0, s, t, c, w)
  {
    hide EvictingAt;
    hide OpeningAt;
    hide WritingAt;
    hide InsertingAt;
    hide Finished;
    hide FileOf;
    hide LookedUp;
    hide DiskGet;
  }

  lemma LinkedAfterEvict(s: Proxy, dir: map<Name, nat>)
    requires Linked(s.dir, s.data) && forall n | n in dir :: n in s.dir && dir[n] == s.dir[n]
    ensures Linked(dir, s.data)
  {
  }

  lemma EvictAt(cfg: Config, s0: Proxy, s: Proxy, t: nat, c: Call, w: Account, victim: Option<Name>) returns (w': Account)
    requires At(cfg, s0, s, t, c, w) && Enabled(cfg, s, t, Evict(victim))
    requires Evicted(cfg.maxEntries, View(s), View(Apply(cfg, s, t, Evict(victim))))
    ensures At(cfg, s0, Apply(cfg, s, t, Evict(victim)), t, c, w') && w' == w.(evicted := w'.evicted, modified := w'.modified)
  {
    hide *;
    ApplyEvict(cfg, s, t, victim);
    FromAt(cfg, s0, s, t, c, w);
    var ph, s' := s.threads[t], Apply(cfg, s, t, Evict(victim));
    w' := w.(evicted := View(s'));
    GotoFields(s, t, PutOpening(ph.p, ph.reply));
    LinkedAfterEvict(s, s'.dir);
    EvictingToOpening(cfg, s0, s, s', c, w, ph.p, ph.reply);
    MovedPhase(s, t, s', PutOpening(ph.p, ph.reply));
    ToAt(cfg, s0, s', t, c, w', PutOpening(ph.p, ph.reply));
  }

  lemma EvictingToOpening(cfg: Config, s0: Proxy, s: Proxy, s': Proxy, c: Call, w: Account, p: PutRecord, reply: Option<Served>)
    requires EvictingAt(cfg, s0, s, c, w, p, reply) && Evicted(cfg.maxEntries, View(s), View(s'))
    requires s'.puts == s.puts && s'.served == s.served && s'.memory == s.memory
    ensures OpeningAt(cfg, s0, s', c, w.(evicted := View(s')), p, reply)
  {
    hide Evicted;
    hide View;
    hide Step;
    hide Decide;
  }

  lemma OpeningToWriting(cfg: Config, s0: Proxy, s: Proxy, s': Proxy, c: Call, w: Account, p: PutRecord, reply: Option<Served>,
                         ino: nat, clock: Time)
    requires Linked(s.dir, s.data) && OpeningAt(cfg, s0, s, c, w, p, reply)
    requires var tmp := TempFile(cfg.hash(p.key)); if tmp in s.dir then ino == s.dir[tmp] else ino !in s.data
    requires s'.puts == s.puts && s'.served == s.served && s'.memory == s.memory
    requires s'.dir == s.dir[TempFile(cfg.hash(p.key)) := ino] && s'.data == s.data[ino := File(clock, [])]
    ensures Linked(s'.dir, s'.data) && WritingAt(cfg, s0, s', c, w.(modified := clock), p, reply, ino, [])
  {
    hide Decided;
    hide Linked;
    hide View;
    hide Evicted;
    ViewOfTemp(s, cfg.hash(p.key), ino, File(clock, []));
    DecidedElsewhere(cfg, s0, s, s', c, w, w.(modified := clock), p, reply);
    assert w.mid.disk.Some? by { DecidedHasDisk(cfg, s0, s, c, w, p, reply); }
    SameView(s.(dir := s'.dir, data := s'.data), s');
  }

  lemma DecidedHasDisk(cfg: Config, s0: Proxy, s: Proxy, c: Call, w: Account, p: PutRecord, reply: Option<Served>)
    requires Decided(cfg, s0, s, c, w, p, reply)
    ensures w.mid.disk.Some?
  {
  }

  lemma OpenAt(cfg: Config, s0: Proxy, s: Proxy, t: nat, c: Call, w: Account, ino: nat, clock: Time) returns (w': Account)
    requires At(cfg, s0, s, t, c, w) && Enabled(cfg, s, t, Open(ino, clock))
    ensures At(cfg, s0, Apply(cfg, s, t, Open(ino, clock)), t, c, w') && w' == w.(evicted := w'.evicted, modified := w'.modified)
  {
    hide *;
    ApplyOpen(cfg, s, t, ino, clock);
    FromAt(cfg, s0, s, t, c, w);
    var ph, s' := s.threads[t], Apply(cfg, s, t, Open(ino, clock));
    var ph' := PutWriting(ph.p, ph.reply, ino, 0);
    w' := w.(modified := clock);
    FileIsNotEmpty(ph.p);
    GotoFields(s, t, ph');
    OpeningToWriting(cfg, s0, s, s', c, w, ph.p, ph.reply, ino, clock);
    MovedPhase(s, t, s', ph');
    assert FileOf(ph.p)[..0] == [];
    ToAt(cfg, s0, s', t, c, w', ph');
  }

  /** The view after a write at the place where the writer had stopped. */
  lemma WriteView(cfg: Config, s: Proxy, w: Account, p: PutRecord, ino: nat, off: nat, end: nat, clock: Time)
    requires Linked(s.dir, s.data) && off <= end <= |FileOf(p)| && PartWritten(cfg, s, w, p, ino, FileOf(p)[..off])
    ensures ino in s.data
    ensures var s' := s.(data := s.data[ino := File(clock, WriteAt(s.data[ino].bytes, off, FileOf(p)[off..end]))]);
            Linked(s'.dir, s'.data) && PartWritten(cfg, s', w.(modified := clock), p, ino, FileOf(p)[..end])
  {
    hide Evicted;
    hide FileOf;
    hide WriteAt;
    var bytes, tmp := FileOf(p), TempFile(cfg.hash(p.key));
    ViewOfEntry(s, tmp);
    Resume(bytes, off, end);
    ViewOfTemp(s, cfg.hash(p.key), ino, File(clock, bytes[..end]));
    assert s.dir[tmp := ino] == s.dir;
  }

  lemma WritingOn(cfg: Config, s0: Proxy, s: Proxy, s': Proxy, c: Call, w: Account, p: PutRecord, reply: Option<Served>,
                  ino: nat, off: nat, end: nat, clock: Time)
    requires Linked(s.dir, s.data) && off <= end <= |FileOf(p)|
    requires WritingAt(cfg, s0, s, c, w, p, reply, ino, FileOf(p)[..off])
    requires s'.puts == s.puts && s'.served == s.served && s'.memory == s.memory && s'.dir == s.dir
    requires var existing := if ino in s.data then s.data[ino].bytes else [];
             s'.data == s.data[ino := File(clock, WriteAt(existing, off, FileOf(p)[off..end]))]
    ensures Linked(s'.dir, s'.data) && WritingAt(cfg, s0, s', c, w.(modified := clock), p, reply, ino, FileOf(p)[..end])
  {
    hide Decided;
    hide FileOf;
    hide WriteAt;
    hide Linked;
    hide View;
    hide Evicted;
    WriteView(cfg, s, w, p, ino, off, end, clock);
    DecidedElsewhere(cfg, s0, s, s', c, w, w.(modified := clock), p, reply);
    SameView(s.(data := s'.data), s');
  }

  lemma WrittenAt(cfg: Config, s0: Proxy, s: Proxy, t: nat, c: Call, w: Account, n: nat, clock: Time) returns (w': Account)
    requires At(cfg, s0, s, t, c, w) && Enabled(cfg, s, t, Write(n, clock))
    ensures At(cfg, s0, Apply(cfg, s, t, Write(n, clock)), t, c, w') && w' == w.(evicted := w'.evicted, modified := w'.modified)
  {
    hide *;
    ApplyWrite(cfg, s, t, n, clock);
    FromAt(cfg, s0, s, t, c, w);
    var ph, s' := s.threads[t], Apply(cfg, s, t, Write(n, clock));
    var bytes, end := FileOf(ph.p), ph.off + n;
    var ph' := if end < |bytes| then ph.(off := end) else PutRenaming(ph.p, ph.reply, ph.ino);
    w' := w.(modified := clock);
    GotoFields(s, t, ph');
    WritingOn(cfg, s0, s, s', c, w, ph.p, ph.reply, ph.ino, ph.off, end, clock);
    MovedPhase(s, t, s', ph');
    assert bytes[..|bytes|] == bytes;
    ToAt(cfg, s0, s', t, c, w', ph');
  }

  lemma RenamedAt(cfg: Config, s0: Proxy, s: Proxy, t: nat, c: Call, w: Account)
    requires At(cfg, s0, s, t, c, w) && Enabled(cfg, s, t, Rename)
    ensures At(cfg, s0, Apply(cfg, s, t, Rename), t, c, w)
  {
    ApplyRename(cfg, s, t);
    FromAt(cfg, s0, s, t, c, w);
    hide At;
    hide Enabled;
    hide Apply;
    hide Decided;
    hide Evicted;
    hide FileOf;
    hide Linked;
    var ph, s', h := s.threads[t], Apply(cfg, s, t, Rename), cfg.hash(s.threads[t].p.key);
    ViewOfRename(s, h);
    DecidedElsewhere(cfg, s0, s, s', c, w, w, ph.p, ph.reply);
    assert View(s') == View(s.(dir := s'.dir));
    assert View(s') == Published(cfg, w.evicted, EntryOf(ph.p.key, ph.p.v), w.modified) by { FileOfIsEncoding(ph.p); }
    ToAt(cfg, s0, s', t, c, w, PutInserting(ph.p, ph.reply));
  }

  lemma FileOfIsEncoding(p: PutRecord)
    ensures FileOf(p) == Encoding(EntryOf(p.key, p.v))
  {
  }

  lemma InsertAt(cfg: Config, s0: Proxy, s: Proxy, t: nat, c: Call, w: Account, memory: Memory)
    requires At(cfg, s0, s, t, c, w) && Enabled(cfg, s, t, Insert(memory))
    ensures At(cfg, s0, Apply(cfg, s, t, Insert(memory)), t, c, w)
  {
    hide *;
    ApplyInsert(cfg, s, t, memory);
    FromAt(cfg, s0, s, t, c, w);
    var ph, s' := s.threads[t], Apply(cfg, s, t, Insert(memory));
    InsertFinishes(cfg, s0, s, s', t, c, w, ph.p, ph.reply, memory);
    FinishedAt(cfg, s0, s', t, c, w);
  }

  lemma ApplyInsert(cfg: Config, s: Proxy, t: nat, memory: Memory)
    requires Enabled(cfg, s, t, Insert(memory))
    ensures t in s.threads && s.threads[t].PutInserting?
    ensures Inserted(cfg.maxEntries, s.memory, s.threads[t].p.key, s.threads[t].p.v, memory)
    ensures Apply(cfg, s, t, Insert(memory)) == Reply(Goto(s, t, Idle).(memory := memory), s.threads[t].reply)
  {
    hide Inserted;
  }

  lemma FinishedAt(cfg: Config, s0: Proxy, s: Proxy, t: nat, c: Call, w: Account)
    requires Linked(s.dir, s.data) && Resting(PhaseOf(s, t)) && Finished(cfg, s0, s, t, c, w)
    ensures At(cfg, s0, s, t, c, w)
  {
    hide Finished;
  }

  lemma InsertFinishes(cfg: Config, s0: Proxy, s: Proxy, s': Proxy, t: nat, c: Call, w: Account, p: PutRecord,
                       reply: Option<Served>, memory: Memory)
    requires InsertingAt(cfg, s0, s, c, w, p, reply) && Linked(s.dir, s.data)
    requires Inserted(cfg.maxEntries, s.memory, p.key, p.v, memory)
    requires s' == Reply(Goto(s, t, Idle).(memory := memory), reply)
    ensures Finished(cfg, s0, s', t, c, w) && Linked(s'.dir, s'.data) && Resting(PhaseOf(s', t))
  {
    hide Inserted;
    hide DiskPut;
    hide Decide;
    hide Linked;
    hide View;
    SameView(s, s');
    assert Step(cfg, w.mid, Put(c.key, p.v), Abs(s'));
  }

  // ---------- The whole request ----------

  lemma StepAt(cfg: Config, s0: Proxy, s: Proxy, t: nat, c: Call, w: Account, a: Action) returns (w': Account)
    requires At(cfg, s0, s, t, c, w) && !Resting(PhaseOf(s, t)) && Enabled(cfg, s, t, a)
    requires Regular(cfg, s, a, Apply(cfg, s, t, a))
    ensures At(cfg, s0, Apply(cfg, s, t, a), t, c, w') && Noted(w, a, w')
  {
    w' := w;
    match a {
      case Probe(hasTarget) => w' := ProbeAt(cfg, s0, s, t, c, w, hasTarget);
      case OpenFile => w' := OpenFileAt(cfg, s0, s, t, c, w);
      case ReadSome(n) => ReadSomeAt(cfg, s0, s, t, c, w, n);
      case ReadEnd => w' := ReadEndAt(cfg, s0, s, t, c, w);
      case Fill(hasTarget, memory) => w' := FillAt(cfg, s0, s, t, c, w, hasTarget, memory);
      case NotModified(_) => w' := OriginAt(cfg, s0, s, t, c, w, a);
      case Modified(_, _, _) => w' := OriginAt(cfg, s0, s, t, c, w, a);
      case RevalidationFailed => w' := OriginAt(cfg, s0, s, t, c, w, a);
      case Evict(victim) => w' := EvictAt(cfg, s0, s, t, c, w, victim);
      case Open(ino, clock) => w' := OpenAt(cfg, s0, s, t, c, w, ino, clock);
      case Write(n, clock) => w' := WrittenAt(cfg, s0, s, t, c, w, n, clock);
      case Rename => RenamedAt(cfg, s0, s, t, c, w);
      case Insert(memory) => InsertAt(cfg, s0, s, t, c, w, memory);
      case _ => assert false;
    }
  }

  lemma StaysFaithful(w: Account, turns: seq<Turn>, turn: Turn, w': Account)
    requires Faithful(w, turns) && Noted(w, turn.action, w')
    ensures Faithful(w', turns + [turn])
  {
    assert (turns + [turn])[..|turns|] == turns;
  }

  lemma NothingHeard(turn: Turn)
    requires turn.action.Begin?
    ensures Faithful(NOTHING_YET, [] + [turn])
  {
    StaysFaithful(NOTHING_YET, [], turn, NOTHING_YET);
  }

  lemma SoloStep(cfg: Config, states: seq<Proxy>, turns: seq<Turn>, t: nat, i: nat)
    requires Solo(cfg, states, turns, t) && i < |turns|
    ensures Enabled(cfg, states[i], t, turns[i].action) && states[i + 1] == Apply(cfg, states[i], t, turns[i].action)
    ensures Regular(cfg, states[i], turns[i].action, Apply(cfg, states[i], t, turns[i].action))
    ensures i > 0 ==> !Resting(PhaseOf(states[i], t))
  {
    hide Regular;
    hide Enabled;
    hide Apply;
  }

  lemma {:induction false} SoloAt(cfg: Config, states: seq<Proxy>, turns: seq<Turn>, t: nat, c: Call, n: nat) returns (w: Account)
    requires Solo(cfg, states, turns, t) && Linked(states[0].dir, states[0].data) && 0 < n <= |turns|
    requires turns[0].action == Begin(c.l, c.key, c.now)
    ensures At(cfg, states[0], states[n], t, c, w) && Faithful(w, turns[..n])
  {
    hide At;
    hide Enabled;
    hide Apply;
    hide Faithful;
    hide Noted;
    assert turns[..n] == turns[..n - 1] + [turns[n - 1]];
    if n == 1 {
      w := BeginAt(cfg, states[0], t, c);
      NothingHeard(turns[0]);
    } else {
      var before := SoloAt(cfg, states, turns, t, c, n - 1);
      SoloStep(cfg, states, turns, t, n - 1);
      w := StepAt(cfg, states[0], states[n - 1], t, c, before, turns[n - 1].action);
      StaysFaithful(before, turns[..n - 1], turns[n - 1], w);
    }
  }

  lemma ReachedIsLinked(cfg: Config, s: Proxy)
    requires Reachable(cfg, s)
    ensures Linked(s.dir, s.data)
  {
    var states, turns :| RunsTo(cfg, states, turns, s);
    RunKeepsLinked(cfg, states, turns, |turns|);
  }

  /**
   The machine, undisturbed, is the sequential cache: from any state that any run reaches, all steps of one
   request, in whatever pieces it reads and writes, make up one lookup of `CacheStore`, the decision
   `CacheStage` takes on its result, and the one put decided, if any; what is served, what is put in
   the history, and whether the request goes on to fetch, are as decided.
   */
  lemma UndisturbedIsStage(cfg: Config, states: seq<Proxy>, turns: seq<Turn>, t: nat, c: Call)
    requires Solo(cfg, states, turns, t) && Reachable(cfg, states[0])
    requires turns[0].action == Begin(c.l, c.key, c.now)
    ensures exists w :: Finished(cfg, states[0], states[|turns|], t, c, w) && Faithful(w, turns)
  {
    assert turns[..|turns|] == turns;
    ReachedIsLinked(cfg, states[0]);
    hide Linked;
    hide Reachable;
    var w := SoloAt(cfg, states, turns, t, c, |turns|);
    hide Finished;
    hide Step;
    hide Decide;
  }

  /** The outcome is what the history has gained and where the request rests. */
  ghost predicate Shows(s0: Proxy, s: Proxy, t: nat, o: Outcome) {
    && s.served == s0.served + (if o.served.Some? then {o.served.value} else {})
    && s.puts == s0.puts + AsSeq(o.put)
    && PhaseOf(s, t) == if o.cacheKey.Some? then Fetching(o.cacheKey.value) else Idle
  }

  /**
   So, spelled out: the request is answered by what one sequential lookup found, by whether there was a
   target to ask, and by what the origin answered in these very steps and when, as `AsPromised` says - with
   an unexpired response, with one that the origin has just confirmed or replaced, or by fetching; and if
   the origin could not be reached, nothing is served or put, and it fetches.
   */
  lemma StageIsSound(cfg: Config, states: seq<Proxy>, turns: seq<Turn>, t: nat, c: Call)
    requires Solo(cfg, states, turns, t) && Reachable(cfg, states[0])
    requires turns[0].action == Begin(c.l, c.key, c.now)
    ensures exists found, mid, o ::
              && Step(cfg, Abs(states[0]), Look(c.key, c.now, found), mid)
              && AsPromised(c.l, c.key, c.now, found, HadTarget(turns), Heard(turns).0, Heard(turns).1, o)
              && Shows(states[0], states[|turns|], t, o)
  {
    UndisturbedIsStage(cfg, states, turns, t, c);
    hide *;
    var w :| Finished(cfg, states[0], states[|turns|], t, c, w) && Faithful(w, turns);
    FinishedShows(cfg, states[0], states[|turns|], t, c, w, turns);
  }

  lemma FinishedShows(cfg: Config, s0: Proxy, s: Proxy, t: nat, c: Call, w: Account, turns: seq<Turn>)
    requires Finished(cfg, s0, s, t, c, w) && Faithful(w, turns)
    ensures Step(cfg, Abs(s0), Look(c.key, c.now, w.found), w.mid)
    ensures AsPromised(c.l, c.key, c.now, w.found, HadTarget(turns), Heard(turns).0, Heard(turns).1, Decision(c, w))
    ensures Shows(s0, s, t, Decision(c, w))
  {
    DecidesAsPromised(c.l, c.key, c.now, w.found, w.hasTarget, w.origin, w.clock);
    hide Step;
    hide AsPromised;
    hide Decide;
  }

  // ---------- From the upstream response to the put ----------

  /** A request context before the response head arrives. */
  predicate Waiting(c: Capture.Ctx, key: string) {
    c.key == Some(key) && c.ttl.None? && c.acc == Capture.Acc([], false)
  }

  /**
   The head and the complete body stream of an upstream response, as the filters of `Capture` take
   them, are the machine's `Head` and `Store`: they begin exactly the put the filters make, or none.
   */
  lemma CaptureIsStore(cfg: Config, s: Proxy, t: nat, key: string, ctx: Capture.Ctx, status: u16, headers: seq<Header>,
                       calls: seq<Capture.Call>, cap: nat)
    requires PhaseOf(s, t) == Fetching(key) && Waiting(ctx, key)
    requires Capture.CompleteStream(calls) && calls[|calls| - 1].now >= 0
    requires forall put | put in Capture.Puts(Capture.OnHead(ctx, status, headers), calls, cap) ::
               Fits(Entry(put.key, put.expiry, put.response))
    ensures Enabled(cfg, s, t, Head(status, headers))
    ensures var puts := Capture.Puts(Capture.OnHead(ctx, status, headers), calls, cap);
            var s1 := Apply(cfg, s, t, Head(status, headers));
            if puts == [] then PhaseOf(s1, t).Idle? || Enabled(cfg, s1, t, Abandon)
            else
              var store := Store(calls[|calls| - 1].now, puts[0].response.body);
              && puts == [puts[0]] && Enabled(cfg, s1, t, store) && Begins(s1, t, store).Some?
              && var p := Begins(s1, t, store).value;
                 p.key == puts[0].key && p.v == Stored(puts[0].expiry, puts[0].response)
  {
    var clock, body := calls[|calls| - 1].now, Capture.Kept(Capture.Chunks(calls), cap);
    hide *;
    WaitingMeans(ctx, key);
    Capture.StoresExactlyTheBody(ctx, status, headers, calls, cap);
    HeadStep(cfg, s, t, key, status, headers);
    if CaptureTtl(status, headers).Some? && body.Some? {
      StoreStep(cfg, s, t, key, status, headers, clock, body.value);
    }
  }

  lemma WaitingMeans(c: Capture.Ctx, key: string)
    requires Waiting(c, key)
    ensures c.key == Some(key) && c.ttl.None? && c.acc == Capture.Acc([], false)
  {
  }

  lemma HeadStep(cfg: Config, s: Proxy, t: nat, key: string, status: u16, headers: seq<Header>)
    requires PhaseOf(s, t) == Fetching(key)
    ensures Enabled(cfg, s, t, Head(status, headers))
    ensures var s1 := Apply(cfg, s, t, Head(status, headers));
            if CaptureTtl(status, headers).None? then PhaseOf(s1, t).Idle? else Enabled(cfg, s1, t, Abandon)
  {
    hide CaptureTtl;
    hide Captured;
  }

  lemma StoreStep(cfg: Config, s: Proxy, t: nat, key: string, status: u16, headers: seq<Header>, clock: Time, body: seq<byte>)
    requires PhaseOf(s, t) == Fetching(key) && CaptureTtl(status, headers).Some? && clock >= 0
    requires var ttl := CaptureTtl(status, headers).value;
             Fits(Entry(key, clock + Seconds(ttl), Response(status, Captured(headers), body)))
    ensures Enabled(cfg, s, t, Head(status, headers))
    ensures var s1, ttl := Apply(cfg, s, t, Head(status, headers)), CaptureTtl(status, headers).value;
            var p := Begins(s1, t, Store(clock, body));
            && Enabled(cfg, s1, t, Store(clock, body)) && p.Some? && p.value.key == key
            && p.value.v == Stored(clock + Seconds(ttl), Response(status, Captured(headers), body))
  {
    hide CaptureTtl;
    hide Captured;
    hide Fits;
  }
}
