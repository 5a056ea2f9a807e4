/**
 Caching requests on both listeners as interleaved threads over one shared cache. Every step below is
 one critical section, one system call, or one message from the origin; between any two steps of a
 request, any other request may run, and the process may restart.

 Files are inodes. A reader that has opened one goes on reading it after it is unlinked, and a writer
 that holds the temporary file another writer has just renamed goes on writing into the published file.
 */
module ProxyMachine {
  import opened Base
  import opened Codec
  import opened Policy
  import opened CacheStore

  // ---------- State ----------

  datatype Listener = Http12 | Http3

  /** One put, with the clock reading and lifetime its expiry was computed from. */
  datatype PutRecord = PutRecord(key: string, at: Time, ttl: nat, v: Stored)

  /** What a client was sent from the cache, or through it. */
  datatype Served =
    | ServedFresh(key: string, now: Time, response: Response)
    | ServedValidated(key: string, response: Response)
    | ServedModified(key: string, response: Response)

  /** `seen` is how many puts had been published when a reader opened its file; no step depends on it. */
  datatype Phase =
    | Idle
    | Probing(l: Listener, key: string, now: Time)
    | Opening(l: Listener, key: string, now: Time)
    | Reading(l: Listener, key: string, now: Time, ino: nat, got: seq<byte>, seen: nat)
    | Filling(l: Listener, key: string, now: Time, v: Stored, seen: nat)
    | Revalidating(l: Listener, key: string, now: Time, hit: Response)
    | Fetching(key: string)
    | Capturing(key: string, ttl: nat, status: u16, headers: seq<Header>)
    | PutEvicting(p: PutRecord, reply: Option<Served>)
    | PutOpening(p: PutRecord, reply: Option<Served>)
    | PutWriting(p: PutRecord, reply: Option<Served>, ino: nat, off: nat)
    | PutRenaming(p: PutRecord, reply: Option<Served>, ino: nat)
    | PutInserting(p: PutRecord, reply: Option<Served>)

  /** The last three are history: the puts begun, the puts published by a rename, and what was served. */
  datatype Proxy = Proxy(
    memory: Memory,
    dir: map<Name, nat>,
    data: map<nat, File>,
    threads: map<nat, Phase>,
    puts: seq<PutRecord>,
    published: seq<PutRecord>,
    served: set<Served>)

  const INIT := Proxy(map[], map[], map[], map[], [], [], {})

  function PhaseOf(s: Proxy, t: nat): Phase {
    if t in s.threads then s.threads[t] else Idle
  }

  /** The directory as a reader sees it. */
  function View(s: Proxy): Directory {
    map n | n in s.dir && s.dir[n] in s.data :: s.data[s.dir[n]]
  }

  function FileOf(p: PutRecord): seq<byte> {
    Encoding(EntryOf(p.key, p.v))
  }

  // ---------- Steps ----------

  datatype Action =
    | Begin(l: Listener, key: string, now: Time)
    | Probe(hasTarget: bool)
    | OpenFile
    | ReadSome(n: nat)
    | ReadEnd
    | Fill(hasTarget: bool, memory: Memory)
    | NotModified(clock: Time)
    | Modified(clock: Time, headers: seq<Header>, body: seq<byte>)
    | RevalidationFailed
    | Head(status: u16, headers: seq<Header>)
    | Store(clock: Time, body: seq<byte>)
    | Abandon
    | Evict(victim: Option<Name>)
    | Open(ino: nat, clock: Time)
    | Write(n: nat, clock: Time)
    | Rename
    | DiskFault
    | Insert(memory: Memory)
    | Restart

  const DEFAULT_TTL: nat := 60

  /** The put that follows a `304`: HTTP/3 computes the expiry from the time the request arrived. */
  function RefreshRecord(ph: Phase, clock: Time): PutRecord
    requires ph.Revalidating?
  {
    var at := if ph.l == Http3 then ph.now else clock;
    var ttl := if StoredTtl(ph.hit).Some? then StoredTtl(ph.hit).value else DEFAULT_TTL;
    PutRecord(ph.key, at, ttl, Stored(at + Seconds(ttl), ph.hit))
  }

  /** What is kept of a changed response: the same headers as of a captured one. */
  function Latest(headers: seq<Header>, body: seq<byte>): Response {
    Response(200, Captured(headers), body)
  }

  function ReplaceRecord(ph: Phase, clock: Time, latest: Response): PutRecord
    requires ph.Revalidating? && StoredTtl(latest).Some?
  {
    var at := if ph.l == Http3 then ph.now else clock;
    var ttl := StoredTtl(latest).value;
    PutRecord(ph.key, at, ttl, Stored(at + Seconds(ttl), latest))
  }

  function StoreRecord(ph: Phase, clock: Time, body: seq<byte>): PutRecord
    requires ph.Capturing?
  {
    PutRecord(ph.key, clock, ph.ttl, Stored(clock + Seconds(ph.ttl), Response(ph.status, ph.headers, body)))
  }

  predicate Writable(p: PutRecord) {
    Fits(EntryOf(p.key, p.v))
  }

  /**
   When a thread may take a step. Clocks read at or after the epoch; lengths fit the file format; an
   expiry the clock cannot hold makes the request panic, which is `Abandon`.
   */
  ghost predicate Enabled(cfg: Config, s: Proxy, t: nat, a: Action) {
    var ph := PhaseOf(s, t);
    match a
    case Begin(_, _, now) => ph.Idle? && now >= 0
    case Probe(_) => ph.Probing?
    case OpenFile => ph.Opening?
    case ReadSome(n) => ph.Reading? && ph.ino in s.data && 0 < n <= |s.data[ph.ino].bytes| - |ph.got|
    case ReadEnd => ph.Reading? && (ph.ino in s.data ==> |s.data[ph.ino].bytes| <= |ph.got|)
    case Fill(_, memory) => ph.Filling? && Inserted(cfg.maxEntries, s.memory, ph.key, ph.v, memory)
    case NotModified(clock) => ph.Revalidating? && clock >= 0 && Writable(RefreshRecord(ph, clock))
    case Modified(clock, headers, body) =>
      ph.Revalidating? && clock >= 0
      && (StoredTtl(Latest(headers, body)).Some? ==> Writable(ReplaceRecord(ph, clock, Latest(headers, body))))
    case RevalidationFailed => ph.Revalidating?
    case Head(_, _) => ph.Fetching?
    case Store(clock, body) => ph.Capturing? && clock >= 0 && Writable(StoreRecord(ph, clock, body))
    case Abandon => ph.Revalidating? || ph.Fetching? || ph.Capturing?
    case Evict(_) => ph.PutEvicting?
    case Open(ino, _) =>
      ph.PutOpening? &&
      var tmp := TempFile(cfg.hash(ph.p.key));
      if tmp in s.dir then ino == s.dir[tmp] else ino !in s.data
    case Write(n, _) => ph.PutWriting? && 0 < n <= |FileOf(ph.p)| - ph.off
    case Rename => ph.PutRenaming?
    case DiskFault => ph.Opening? || ph.Reading? || ph.PutOpening? || ph.PutWriting? || ph.PutRenaming?
    case Insert(memory) => ph.PutInserting? && Inserted(cfg.maxEntries, s.memory, ph.p.key, ph.p.v, memory)
    case Restart => true
  }

  function Goto(s: Proxy, t: nat, ph: Phase): Proxy {
    s.(threads := s.threads[t := ph])
  }

  lemma GotoFields(s: Proxy, t: nat, ph: Phase)
    ensures var s' := Goto(s, t, ph);
            && s'.puts == s.puts && s'.served == s.served && s'.memory == s.memory && s'.dir == s.dir && s'.data == s.data
            && s'.published == s.published && s'.threads == s.threads[t := ph] && PhaseOf(s', t) == ph
  {
  }

  lemma MovedPhase(s: Proxy, t: nat, s': Proxy, ph: Phase)
    requires s'.threads == s.threads[t := ph]
    ensures PhaseOf(s', t) == ph
  {
  }

  function Reply(s: Proxy, reply: Option<Served>): Proxy {
    if reply.Some? then s.(served := s.served + {reply.value}) else s
  }

  function Zeros(n: nat): (r: seq<byte>)
    ensures |r| == n
  {
    seq(n, _ => 0)
  }

  /** A write at an offset: what follows it stays, and a gap before it reads as zeros. */
  function WriteAt(existing: seq<byte>, off: nat, chunk: seq<byte>): seq<byte> {
    var before := if off <= |existing| then existing[..off] else existing + Zeros(off - |existing|);
    var end := off + |chunk|;
    before + chunk + if end <= |existing| then existing[end..] else []
  }

  /** A lookup has found an entry: serve it, or ask the origin about it, or fetch anew. */
  function Found(s: Proxy, t: nat, l: Listener, key: string, now: Time, v: Stored, hasTarget: bool): Proxy {
    if v.expiry > now then Reply(Goto(s, t, Idle), Some(ServedFresh(key, now, v.response)))
    else if Etag(v.response).Some? && hasTarget then Goto(s, t, Revalidating(l, key, now, v.response))
    else Goto(s, t, Fetching(key))
  }

  /** A whole file has been read; decoding one whose expiry the clock cannot hold panics. */
  function AfterRead(ph: Phase): Phase
    requires ph.Reading?
  {
    match Decoding(ph.got)
    case Complete(e, _) =>
      if e.key == ph.key then Filling(ph.l, ph.key, ph.now, Stored(e.expiry, e.response), ph.seen) else Fetching(ph.key)
    case Truncated => Fetching(ph.key)
    case ClockOverflow => Idle
  }

  function StartPut(s: Proxy, t: nat, p: PutRecord, reply: Option<Served>): Proxy {
    Goto(s, t, PutEvicting(p, reply)).(puts := s.puts + [p])
  }

  ghost function Apply(cfg: Config, s: Proxy, t: nat, a: Action): Proxy
    requires Enabled(cfg, s, t, a)
  {
    var ph := PhaseOf(s, t);
    match a
    case Begin(l, key, now) => Goto(s, t, Probing(l, key, now))
    case Probe(hasTarget) =>
      if ph.key in s.memory then Found(s, t, ph.l, ph.key, ph.now, s.memory[ph.key], hasTarget)
      else Goto(s, t, Opening(ph.l, ph.key, ph.now))
    case OpenFile =>
      var name := EntryFile(cfg.hash(ph.key));
      if name in s.dir then Goto(s, t, Reading(ph.l, ph.key, ph.now, s.dir[name], [], |s.published|))
      else Goto(s, t, Fetching(ph.key))
    case ReadSome(n) => Goto(s, t, ph.(got := ph.got + s.data[ph.ino].bytes[|ph.got|..|ph.got| + n]))
    case ReadEnd => Goto(s, t, AfterRead(ph))
    case Fill(hasTarget, memory) =>
      Found(s.(memory := memory), t, ph.l, ph.key, ph.now, ph.v, hasTarget)
    case NotModified(clock) =>
      StartPut(s, t, RefreshRecord(ph, clock), Some(ServedValidated(ph.key, ph.hit)))
    case Modified(clock, headers, body) =>
      var latest := Latest(headers, body);
      var reply := Some(ServedModified(ph.key, latest));
      if StoredTtl(latest).Some? then StartPut(s, t, ReplaceRecord(ph, clock, latest), reply)
      else Reply(Goto(s, t, Idle), reply)
    case RevalidationFailed => Goto(s, t, Fetching(ph.key))
    case Head(status, headers) =>
      var ttl := CaptureTtl(status, headers);
      if ttl.Some? then Goto(s, t, Capturing(ph.key, ttl.value, status, Captured(headers))) else Goto(s, t, Idle)
    case Store(clock, body) => StartPut(s, t, StoreRecord(ph, clock, body), None)
    case Abandon => Goto(s, t, Idle)
    case Evict(victim) =>
      var s' := Goto(s, t, PutOpening(ph.p, ph.reply));
      if victim.Some? && victim.value.EntryFile? then s'.(dir := s.dir - {victim.value}) else s'
    case Open(ino, clock) =>
      Goto(s, t, PutWriting(ph.p, ph.reply, ino, 0)).(
        dir := s.dir[TempFile(cfg.hash(ph.p.key)) := ino], data := s.data[ino := File(clock, [])])
    case Write(n, clock) =>
      var existing := if ph.ino in s.data then s.data[ph.ino].bytes else [];
      var end := ph.off + n;
      var s' := s.(data := s.data[ph.ino := File(clock, WriteAt(existing, ph.off, FileOf(ph.p)[ph.off..end]))]);
      Goto(s', t, if end < |FileOf(ph.p)| then ph.(off := end) else PutRenaming(ph.p, ph.reply, ph.ino))
    case Rename =>
      var s', h := Goto(s, t, PutInserting(ph.p, ph.reply)), cfg.hash(ph.p.key);
      if TempFile(h) in s.dir then
        s'.(dir := (s.dir - {TempFile(h)})[EntryFile(h) := s.dir[TempFile(h)]], published := s.published + [ph.p])
      else s'
    case DiskFault =>
      if ph.Opening? || ph.Reading? then Goto(s, t, Fetching(ph.key)) else Goto(s, t, PutInserting(ph.p, ph.reply))
    case Insert(memory) => Reply(Goto(s, t, Idle).(memory := memory), ph.reply)
    case Restart => s.(memory := map[], threads := map[])
  }

  // ---------- The steps of a put on its file, one by one ----------

  lemma ApplyEvict(cfg: Config, s: Proxy, t: nat, victim: Option<Name>)
    requires Enabled(cfg, s, t, Evict(victim))
    ensures t in s.threads && s.threads[t].PutEvicting?
    ensures var ph := s.threads[t];
            Apply(cfg, s, t, Evict(victim)) == Goto(s, t, PutOpening(ph.p, ph.reply)).(
              dir := if victim.Some? && victim.value.EntryFile? then s.dir - {victim.value} else s.dir)
  {
  }

  lemma ApplyOpen(cfg: Config, s: Proxy, t: nat, ino: nat, clock: Time)
    requires Enabled(cfg, s, t, Open(ino, clock))
    ensures t in s.threads && s.threads[t].PutOpening?
    ensures var tmp := TempFile(cfg.hash(s.threads[t].p.key)); if tmp in s.dir then ino == s.dir[tmp] else ino !in s.data
    ensures var ph := s.threads[t];
            Apply(cfg, s, t, Open(ino, clock)) == Goto(s, t, PutWriting(ph.p, ph.reply, ino, 0)).(
              dir := s.dir[TempFile(cfg.hash(ph.p.key)) := ino], data := s.data[ino := File(clock, [])])
  {
  }

  lemma ApplyWrite(cfg: Config, s: Proxy, t: nat, n: nat, clock: Time)
    requires Enabled(cfg, s, t, Write(n, clock))
    ensures t in s.threads && s.threads[t].PutWriting? && 0 < n <= |FileOf(s.threads[t].p)| - s.threads[t].off
    ensures var ph := s.threads[t]; var existing := if ph.ino in s.data then s.data[ph.ino].bytes else [];
            var end := ph.off + n;
            Apply(cfg, s, t, Write(n, clock))
              == Goto(s, t, if end < |FileOf(ph.p)| then ph.(off := end) else PutRenaming(ph.p, ph.reply, ph.ino)).(
                   data := s.data[ph.ino := File(clock, WriteAt(existing, ph.off, FileOf(ph.p)[ph.off..end]))])
  {
    hide WriteAt;
    hide FileOf;
  }

  lemma ApplyRename(cfg: Config, s: Proxy, t: nat)
    requires Enabled(cfg, s, t, Rename)
    ensures t in s.threads && s.threads[t].PutRenaming?
    ensures var ph := s.threads[t]; var h := cfg.hash(ph.p.key);
            TempFile(h) in s.dir ==> Apply(cfg, s, t, Rename) == Goto(s, t, PutInserting(ph.p, ph.reply)).(
              dir := (s.dir - {TempFile(h)})[EntryFile(h) := s.dir[TempFile(h)]], published := s.published + [ph.p])
    ensures TempFile(cfg.hash(s.threads[t].p.key)) !in s.dir ==>
              Apply(cfg, s, t, Rename) == Goto(s, t, PutInserting(s.threads[t].p, s.threads[t].reply))
  {
  }

  lemma ApplyRestart(cfg: Config, s: Proxy, t: nat)
    ensures Enabled(cfg, s, t, Action.Restart)
    ensures Apply(cfg, s, t, Action.Restart) == s.(memory := map[], threads := map[])
  {
  }

  /** The put a step begins, if it begins one. */
  ghost function Begins(s: Proxy, t: nat, a: Action): Option<PutRecord> {
    var ph := PhaseOf(s, t);
    match a
    case NotModified(clock) => if ph.Revalidating? then Some(RefreshRecord(ph, clock)) else None
    case Modified(clock, headers, body) =>
      var latest := Latest(headers, body);
      if ph.Revalidating? && StoredTtl(latest).Some? then Some(ReplaceRecord(ph, clock, latest)) else None
    case Store(clock, body) => if ph.Capturing? then Some(StoreRecord(ph, clock, body)) else None
    case _ => None
  }

  // ---------- Runs ----------

  datatype Turn = Turn(thread: nat, action: Action)

  ghost predicate Run(cfg: Config, states: seq<Proxy>, turns: seq<Turn>) {
    && cfg.maxEntries >= 1
    && |states| == |turns| + 1 && states[0] == INIT
    && forall i | 0 <= i < |turns| ::
         && Enabled(cfg, states[i], turns[i].thread, turns[i].action)
         && states[i + 1] == Apply(cfg, states[i], turns[i].thread, turns[i].action)
  }

  lemma RunStep(cfg: Config, states: seq<Proxy>, turns: seq<Turn>, i: nat)
    requires Run(cfg, states, turns) && i < |turns|
    ensures Enabled(cfg, states[i], turns[i].thread, turns[i].action)
    ensures states[i + 1] == Apply(cfg, states[i], turns[i].thread, turns[i].action)
  {
  }

  function AsSeq<T>(x: Option<T>): seq<T> {
    if x.Some? then [x.value] else []
  }

  lemma FoundKeepsPuts(s: Proxy, t: nat, l: Listener, key: string, now: Time, v: Stored, hasTarget: bool)
    ensures Found(s, t, l, key, now, v, hasTarget).puts == s.puts
  {
    hide Etag;
  }

  /** A step adds to the history the put it begins, and nothing else. */
  lemma HistoryStep(cfg: Config, s: Proxy, t: nat, a: Action)
    requires Enabled(cfg, s, t, a)
    ensures Apply(cfg, s, t, a).puts == s.puts + AsSeq(Begins(s, t, a))
  {
    hide View;
    hide Found;
    hide AfterRead;
    hide FileOf;
    if a.Probe? || a.Fill? {
      forall s: Proxy, l, key, now, v, hasTarget ensures Found(s, t, l, key, now, v, hasTarget).puts == s.puts {
        FoundKeepsPuts(s, t, l, key, now, v, hasTarget);
      }
    }
    hide Encoding;
    hide Decoding;
    hide Inserted;
    hide StoredTtl;
    hide CaptureTtl;
    hide Captured;
    hide Writable;
    hide WriteAt;
    hide Etag;
  }

  ghost predicate BegunAt(states: seq<Proxy>, turns: seq<Turn>, i: nat, p: PutRecord)
    requires i < |turns| < |states|
  {
    Begins(states[i], turns[i].thread, turns[i].action) == Some(p)
  }

  /** The puts the first `n` steps of a run begin, in order. */
  ghost function Begun(states: seq<Proxy>, turns: seq<Turn>, n: nat): seq<PutRecord>
    requires n <= |turns| < |states|
  {
    if n == 0 then []
    else Begun(states, turns, n - 1) + AsSeq(Begins(states[n - 1], turns[n - 1].thread, turns[n - 1].action))
  }

  /** The history is exactly the puts the run began, in order: stores, replacements, and refreshes after a 304. */
  lemma {:induction false} PutsWereBegun(cfg: Config, states: seq<Proxy>, turns: seq<Turn>, n: nat)
    requires Run(cfg, states, turns) && n <= |turns|
    ensures states[n].puts == Begun(states, turns, n)
  {
    hide Enabled;
    hide Apply;
    hide Begins;
    if n > 0 {
      PutsWereBegun(cfg, states, turns, n - 1);
      HistoryStep(cfg, states[n - 1], turns[n - 1].thread, turns[n - 1].action);
    }
  }

  /** The step that began a put of the history. */
  lemma {:induction false} BegunSomewhere(cfg: Config, states: seq<Proxy>, turns: seq<Turn>, n: nat, p: PutRecord) returns (i: nat)
    requires Run(cfg, states, turns) && n <= |turns| && p in states[n].puts
    ensures i < n && BegunAt(states, turns, i, p)
  {
    hide Enabled;
    hide Apply;
    hide Begins;
    assert n > 0;
    HistoryStep(cfg, states[n - 1], turns[n - 1].thread, turns[n - 1].action);
    if p in states[n - 1].puts {
      i := BegunSomewhere(cfg, states, turns, n - 1, p);
    } else {
      i := n - 1;
    }
  }

  // ---------- Puts that do not share a temporary file ----------

  /** No two requests are writing to the temporary file of the same hash. */
  ghost predicate SoleWriter(cfg: Config, s: Proxy) {
    forall t, u | t in s.threads && u in s.threads && t != u && s.threads[t].PutWriting? && s.threads[u].PutWriting? ::
      cfg.hash(s.threads[t].p.key) != cfg.hash(s.threads[u].p.key)
  }

  ghost predicate SoleWriterRun(cfg: Config, states: seq<Proxy>, turns: seq<Turn>) {
    Run(cfg, states, turns) && forall s | s in states :: SoleWriter(cfg, s)
  }

  /** Between creating the temporary file and renaming it. */
  predicate HoldsTemp(ph: Phase) {
    ph.PutWriting? || ph.PutRenaming?
  }

  /** No two requests hold the temporary file of the same hash, which is more. */
  ghost predicate Exclusive(cfg: Config, s: Proxy) {
    forall t, u | t in s.threads && u in s.threads && t != u && HoldsTemp(s.threads[t]) && HoldsTemp(s.threads[u]) ::
      cfg.hash(s.threads[t].p.key) != cfg.hash(s.threads[u].p.key)
  }

  ghost predicate ExclusiveRun(cfg: Config, states: seq<Proxy>, turns: seq<Turn>) {
    Run(cfg, states, turns) && forall s | s in states :: Exclusive(cfg, s)
  }
}
