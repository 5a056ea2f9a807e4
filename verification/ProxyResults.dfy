/**
 What holds of every interleaving of caching requests in which no two puts of one hash write at once:
 both tiers hold only what was put, a response served as fresh was put and has not expired, and where stored
 lifetimes and stored cookies come from. `TornFile` shows that this is exactly the condition.
 */
module ProxyResults {
  import opened Base
  import opened Codec
  import opened Policy
  import opened CacheStore
  import opened ProxyMachine
  import opened ProxyFiles
  import opened FilePrefixes

  // ---------- The invariant ----------

  /**
   Every put stores a 200 until its own `max-age` after the clock reading it was computed from, unless
   its response gives no lifetime back and the default was taken.
   */
  predicate Sound(p: PutRecord) {
    && p.v.response.status == 200
    && p.at >= 0 && p.v.expiry == p.at + Seconds(p.ttl)
    && Writable(p)
    && (DeclaredMaxAge(p.v.response) == Some(p.ttl) || (p.ttl == DEFAULT_TTL && StoredTtl(p.v.response) == None))
  }

  predicate BackedBy(p: PutRecord, key: string, v: Stored) {
    p.key == key && SameUpToDisk(v, p.v)
  }

  ghost predicate Backed(puts: seq<PutRecord>, key: string, v: Stored) {
    exists p :: p in puts && BackedBy(p, key, v)
  }

  predicate StoredBy(p: PutRecord, key: string, r: Response) {
    p.key == key && p.v.response == r
  }

  ghost predicate OnceStored(puts: seq<PutRecord>, key: string, r: Response) {
    exists p :: p in puts && StoredBy(p, key, r)
  }

  /** Captured headers declare the lifetime, set no cookie, and give the lifetime back if `Vary` lets them. */
  predicate CaptureOk(ttl: nat, status: u16, headers: seq<Header>) {
    var r := Response(200, headers, []);
    && status == 200 && DeclaredMaxAge(r) == Some(ttl) && !SetsCookie(r)
    && (StoredTtl(r) == Some(ttl) <==> VaryCacheable(FirstValue(headers, "vary")))
  }

  ghost predicate PhaseOk(puts: seq<PutRecord>, ph: Phase) {
    match ph
    case Idle => true
    case Probing(_, _, now) => now >= 0
    case Opening(_, _, now) => now >= 0
    case Reading(_, _, now, _, _, _) => now >= 0
    case Filling(_, key, now, v, _) => now >= 0 && Backed(puts, key, v)
    case Revalidating(_, key, now, hit) => now >= 0 && OnceStored(puts, key, hit)
    case Fetching(_) => true
    case Capturing(_, ttl, status, headers) => CaptureOk(ttl, status, headers)
    case PutEvicting(p, reply) => p in puts && ReplyOk(puts, reply)
    case PutOpening(p, reply) => p in puts && ReplyOk(puts, reply)
    case PutWriting(p, reply, _, _) => p in puts && ReplyOk(puts, reply)
    case PutRenaming(p, reply, _) => p in puts && ReplyOk(puts, reply)
    case PutInserting(p, reply) => p in puts && ReplyOk(puts, reply)
  }

  ghost predicate ReplyOk(puts: seq<PutRecord>, reply: Option<Served>) {
    reply.Some? ==> ServedOk(puts, reply.value)
  }

  predicate FreshFrom(p: PutRecord, key: string, now: Time, r: Response) {
    StoredBy(p, key, r) && now < p.at + Seconds(p.ttl)
  }

  ghost predicate ServedOk(puts: seq<PutRecord>, x: Served) {
    match x
    case ServedFresh(key, now, r) => exists p :: p in puts && FreshFrom(p, key, now, r)
    case ServedValidated(key, r) => OnceStored(puts, key, r)
    case ServedModified(_, r) => r.status == 200
  }

  ghost predicate HistoryOk(s: Proxy) {
    && (forall p | p in s.puts :: Sound(p))
    && (forall p | p in s.published :: p in s.puts)
    && (forall k | k in s.memory :: Backed(s.puts, k, s.memory[k]))
    && (forall t | t in s.threads :: PhaseOk(s.puts, s.threads[t]))
    && (forall x | x in s.served :: ServedOk(s.puts, x))
  }

  ghost predicate Inv(cfg: Config, s: Proxy) {
    PrefixesOk(cfg, s) && HistoryOk(s)
  }

  lemma ServedOkGrows(puts: seq<PutRecord>, p: PutRecord, x: Served)
    requires ServedOk(puts, x)
    ensures ServedOk(puts + [p], x)
  {
    hide SameUpToDisk;
  }

  lemma PhaseOkGrows(puts: seq<PutRecord>, p: PutRecord, ph: Phase)
    requires PhaseOk(puts, ph)
    ensures PhaseOk(puts + [p], ph)
  {
    hide SameUpToDisk;
    hide ServedOk;
    hide CaptureOk;
    if ph.PutEvicting? || ph.PutOpening? || ph.PutWriting? || ph.PutRenaming? || ph.PutInserting? {
      if ph.reply.Some? {
        ServedOkGrows(puts, p, ph.reply.value);
      }
    }
  }

  /** The history only grows, so what held of the old one holds of the new one. */
  lemma HistoryGrows(s: Proxy, p: PutRecord)
    requires HistoryOk(s) && Sound(p)
    ensures HistoryOk(s.(puts := s.puts + [p]))
  {
    hide Sound;
    hide PhaseOk;
    hide ServedOk;
    hide SameUpToDisk;
    forall t | t in s.threads ensures PhaseOk(s.puts + [p], s.threads[t]) {
      PhaseOkGrows(s.puts, p, s.threads[t]);
    }
    forall x | x in s.served ensures ServedOk(s.puts + [p], x) {
      ServedOkGrows(s.puts, p, x);
    }
    forall k | k in s.memory ensures Backed(s.puts + [p], k, s.memory[k]) {
      var q :| q in s.puts && BackedBy(q, k, s.memory[k]);
      assert q in s.puts + [p];
    }
  }

  lemma GotoKeeps(s: Proxy, t: nat, ph: Phase)
    requires HistoryOk(s) && PhaseOk(s.puts, ph)
    ensures HistoryOk(Goto(s, t, ph))
  {
    hide PhaseOk;
    hide Sound;
    hide Backed;
    hide ServedOk;
  }

  lemma ReplyKeeps(s: Proxy, reply: Option<Served>)
    requires HistoryOk(s) && ReplyOk(s.puts, reply)
    ensures HistoryOk(Reply(s, reply))
  {
    hide PhaseOk;
    hide Sound;
    hide Backed;
    hide ServedOk;
  }

  lemma MemoryKeeps(s: Proxy, max: nat, key: string, v: Stored, memory: Memory)
    requires HistoryOk(s) && Backed(s.puts, key, v) && Inserted(max, s.memory, key, v, memory)
    ensures HistoryOk(s.(memory := memory))
  {
    hide PhaseOk;
    hide Sound;
    hide Backed;
    hide ServedOk;
    forall k | k in memory ensures Backed(s.puts, k, memory[k]) {
      assert k == key || (k in s.memory && memory[k] == s.memory[k]);
    }
  }

  /** The file system and its history of publications are not looked at. */
  lemma FilesDoNotMatter(s: Proxy, dir: map<Name, nat>, data: map<nat, File>)
    requires HistoryOk(s)
    ensures HistoryOk(s.(dir := dir, data := data))
  {
    hide PhaseOk;
    hide Sound;
    hide Backed;
    hide ServedOk;
  }

  lemma HistoryPhase(s: Proxy, t: nat)
    requires HistoryOk(s)
    ensures PhaseOk(s.puts, PhaseOf(s, t))
  {
    hide Sound;
    hide Backed;
    hide ServedOk;
  }

  lemma HistorySound(s: Proxy)
    requires HistoryOk(s)
    ensures forall p | p in s.puts :: Sound(p)
    ensures forall p | p in s.published :: p in s.puts
  {
  }

  lemma HistoryMemory(s: Proxy)
    requires HistoryOk(s)
    ensures forall k | k in s.memory :: Backed(s.puts, k, s.memory[k])
  {
  }

  // ---------- Each step keeps the invariant ----------

  lemma FreshIsJustified(puts: seq<PutRecord>, key: string, v: Stored, now: Time)
    requires (forall p | p in puts :: Sound(p)) && Backed(puts, key, v) && now >= 0 && v.expiry > now
    ensures ServedOk(puts, ServedFresh(key, now, v.response))
  {
    hide StoredTtl;
    hide DeclaredMaxAge;
    hide Fits;
    var p :| p in puts && BackedBy(p, key, v);
    assert Sound(p);
    DiskExpiryNotLater(p.v.expiry);
    assert FreshFrom(p, key, now, v.response);
  }

  lemma DiskExpiryNotLater(t: Time)
    requires t >= 0
    ensures DiskExpiry(t) <= t
  {
  }

  lemma FoundKeeps(s: Proxy, t: nat, l: Listener, key: string, now: Time, v: Stored, hasTarget: bool)
    requires HistoryOk(s) && Backed(s.puts, key, v) && now >= 0
    ensures HistoryOk(Found(s, t, l, key, now, v, hasTarget))
  {
    hide Sound;
    hide HistoryOk;
    hide Etag;
    if v.expiry > now {
      HistorySound(s);
      FreshIsJustified(s.puts, key, v, now);
      GotoKeeps(s, t, Idle);
      ReplyKeeps(Goto(s, t, Idle), Some(ServedFresh(key, now, v.response)));
    } else {
      var p :| p in s.puts && BackedBy(p, key, v);
      assert StoredBy(p, key, v.response);
      GotoKeeps(s, t, Revalidating(l, key, now, v.response));
      GotoKeeps(s, t, Fetching(key));
    }
  }

  lemma StartPutKeeps(s: Proxy, t: nat, p: PutRecord, reply: Option<Served>)
    requires HistoryOk(s) && Sound(p) && ReplyOk(s.puts, reply)
    ensures HistoryOk(StartPut(s, t, p, reply))
  {
    hide Sound;
    hide HistoryOk;
    hide ServedOk;
    var s' := s.(puts := s.puts + [p]);
    HistoryGrows(s, p);
    if reply.Some? {
      ServedOkGrows(s.puts, p, reply.value);
    }
    GotoKeeps(s', t, PutEvicting(p, reply));
    assert StartPut(s, t, p, reply) == Goto(s', t, PutEvicting(p, reply));
  }

  /** Every put begun is sound; the default is taken exactly for a hit that gives no lifetime back. */
  lemma BegunPutsAreSound(cfg: Config, s: Proxy, t: nat, a: Action)
    requires HistoryOk(s) && Enabled(cfg, s, t, a) && Begins(s, t, a).Some?
    ensures Sound(Begins(s, t, a).value)
  {
    hide StoredTtl;
    hide DeclaredMaxAge;
    hide Fits;
    hide Captured;
    hide HistoryOk;
    HistoryPhase(s, t);
    var ph := PhaseOf(s, t);
    match a {
      case NotModified(clock) =>
        var q :| q in s.puts && StoredBy(q, ph.key, ph.hit);
        HistorySound(s);
        assert Sound(q);
        StoredTtlIsDeclared(ph.hit);
      case Modified(clock, headers, body) =>
        StoredTtlIsDeclared(Latest(headers, body));
      case Store(clock, body) =>
        LifetimeIgnoresBody(ph.headers, body);
      case _ =>
    }
  }

  lemma StoredTtlIsDeclared(r: Response)
    ensures StoredTtl(r).Some? ==> DeclaredMaxAge(r) == StoredTtl(r)
  {
    hide MaxAge;
    hide VaryCacheable;
    hide HasDirective;
  }

  lemma LifetimeIgnoresBody(headers: seq<Header>, body: seq<byte>)
    ensures StoredTtl(Response(200, headers, body)) == StoredTtl(Response(200, headers, []))
    ensures DeclaredMaxAge(Response(200, headers, body)) == DeclaredMaxAge(Response(200, headers, []))
    ensures SetsCookie(Response(200, headers, body)) == SetsCookie(Response(200, headers, []))
  {
  }

  lemma LookupStepKeeps(cfg: Config, s: Proxy, t: nat, a: Action)
    requires HistoryOk(s) && Enabled(cfg, s, t, a)
    requires a.Begin? || a.Probe? || a.OpenFile? || a.ReadSome? || a.Fill?
    ensures HistoryOk(Apply(cfg, s, t, a))
  {
    hide Found;
    hide Inserted;
    hide HistoryOk;
    HistoryPhase(s, t);
    var ph := PhaseOf(s, t);
    match a {
      case Begin(l, key, now) => GotoKeeps(s, t, Probing(l, key, now));
      case Probe(hasTarget) =>
        if ph.key in s.memory {
          HistoryMemory(s);
          FoundKeeps(s, t, ph.l, ph.key, ph.now, s.memory[ph.key], hasTarget);
        } else {
          GotoKeeps(s, t, Opening(ph.l, ph.key, ph.now));
        }
      case OpenFile =>
        GotoKeeps(s, t, PhaseOf(Apply(cfg, s, t, a), t));
      case ReadSome(n) =>
        GotoKeeps(s, t, PhaseOf(Apply(cfg, s, t, a), t));
      case Fill(hasTarget, memory) =>
        MemoryKeeps(s, cfg.maxEntries, ph.key, ph.v, memory);
        FoundKeeps(s.(memory := memory), t, ph.l, ph.key, ph.now, ph.v, hasTarget);
    }
  }

  /** A whole file or the beginning of one gives what was put under exactly that key, or nothing. */
  lemma PrefixIsBacked(s: Proxy, bytes: seq<byte>, key: string)
    requires HistoryOk(s) && PrefixOfPut(s.puts, bytes)
    ensures match Decoding(bytes)
            case Complete(e, _) => e.key == key ==> Backed(s.puts, key, Stored(e.expiry, e.response))
            case Truncated => true
            case ClockOverflow => false
  {
    hide Decoding;
    hide FileOf;
    hide Fits;
    hide StoredTtl;
    hide DeclaredMaxAge;
    HistorySound(s);
    hide HistoryOk;
    var p :| p in s.puts && bytes <= FileOf(p);
    assert Sound(p);
    PrefixDecodes(p, bytes);
    var v := Stored(DiskExpiry(p.v.expiry), p.v.response);
    hide DiskExpiry;
    assert BackedBy(p, p.key, v);
  }

  lemma ReadEndKeeps(cfg: Config, s: Proxy, t: nat)
    requires Inv(cfg, s) && Enabled(cfg, s, t, ReadEnd)
    ensures HistoryOk(Apply(cfg, s, t, ReadEnd))
  {
    hide HistoryOk;
    hide PrefixesOk;
    hide PrefixOfPut;
    hide Decoding;
    hide Backed;
    HistoryPhase(s, t);
    var ph := PhaseOf(s, t);
    assert t in s.threads && ph.Reading?;
    GotIsPrefix(cfg, s, t);
    PrefixIsBacked(s, ph.got, ph.key);
    GotoKeeps(s, t, AfterRead(ph));
  }

  lemma OriginStepKeeps(cfg: Config, s: Proxy, t: nat, a: Action)
    requires HistoryOk(s) && Enabled(cfg, s, t, a)
    requires a.NotModified? || a.Modified? || a.RevalidationFailed? || a.Head? || a.Store? || a.Abandon?
    ensures HistoryOk(Apply(cfg, s, t, a))
  {
    hide Sound;
    hide StoredTtl;
    hide CaptureTtl;
    hide Captured;
    hide CaptureOk;
    hide Writable;
    hide StartPut;
    hide HistoryOk;
    HistoryPhase(s, t);
    var ph := PhaseOf(s, t);
    match a {
      case NotModified(clock) =>
        BegunPutsAreSound(cfg, s, t, a);
        StartPutKeeps(s, t, RefreshRecord(ph, clock), Some(ServedValidated(ph.key, ph.hit)));
      case Modified(clock, headers, body) =>
        var latest := Latest(headers, body);
        var reply := Some(ServedModified(ph.key, latest));
        if StoredTtl(latest).Some? {
          BegunPutsAreSound(cfg, s, t, a);
          StartPutKeeps(s, t, ReplaceRecord(ph, clock, latest), reply);
        } else {
          GotoKeeps(s, t, Idle);
          ReplyKeeps(Goto(s, t, Idle), reply);
        }
      case RevalidationFailed => GotoKeeps(s, t, Fetching(ph.key));
      case Head(status, headers) =>
        var ttl := CaptureTtl(status, headers);
        if ttl.Some? {
          CaptureIsOk(status, headers);
          GotoKeeps(s, t, Capturing(ph.key, ttl.value, status, Captured(headers)));
        } else {
          GotoKeeps(s, t, Idle);
        }
      case Store(clock, body) =>
        BegunPutsAreSound(cfg, s, t, a);
        StartPutKeeps(s, t, StoreRecord(ph, clock, body), None);
      case Abandon => GotoKeeps(s, t, Idle);
    }
  }

  lemma CaptureIsOk(status: u16, headers: seq<Header>)
    requires CaptureTtl(status, headers).Some?
    ensures CaptureOk(CaptureTtl(status, headers).value, status, Captured(headers))
  {
    StoredTtlAgrees(status, headers, []);
    CapturedDeclaresTtl(status, headers, []);
    CapturedSetsNoCookie(status, headers);
    KeptNames();
    FirstValueOfCaptured(headers, "vary");
    hide StoredTtl;
    hide DeclaredMaxAge;
    hide CaptureTtl;
    hide Captured;
    hide VaryCacheable;
    hide FirstValue;
    hide FirstVisible;
  }

  lemma PutStepKeeps(cfg: Config, s: Proxy, t: nat, a: Action)
    requires HistoryOk(s) && Enabled(cfg, s, t, a)
    requires a.Evict? || a.Open? || a.Write? || a.DiskFault?
    ensures HistoryOk(Apply(cfg, s, t, a))
  {
    hide Sound;
    hide FileOf;
    hide WriteAt;
    hide HistoryOk;
    hide ReplyOk;
    HistoryPhase(s, t);
    var s' := Apply(cfg, s, t, a);
    assert s' == Goto(s, t, PhaseOf(s', t)).(dir := s'.dir, data := s'.data);
    assert PhaseOk(s.puts, PhaseOf(s', t));
    hide Enabled;
    hide Apply;
    GotoKeeps(s, t, PhaseOf(s', t));
    FilesDoNotMatter(Goto(s, t, PhaseOf(s', t)), s'.dir, s'.data);
  }

  lemma InsertKeeps(cfg: Config, s: Proxy, t: nat, memory: Memory)
    requires HistoryOk(s) && Enabled(cfg, s, t, Insert(memory))
    ensures HistoryOk(Apply(cfg, s, t, Insert(memory)))
  {
    hide Sound;
    hide Inserted;
    hide HistoryOk;
    hide ReplyOk;
    HistoryPhase(s, t);
    var ph := PhaseOf(s, t);
    assert BackedBy(ph.p, ph.p.key, ph.p.v);
    MemoryKeeps(s, cfg.maxEntries, ph.p.key, ph.p.v, memory);
    GotoKeeps(s.(memory := memory), t, Idle);
    ReplyKeeps(Goto(s.(memory := memory), t, Idle), ph.reply);
  }

  lemma RenameKeepsHistory(cfg: Config, s: Proxy, t: nat)
    requires HistoryOk(s) && Enabled(cfg, s, t, Rename)
    ensures HistoryOk(Apply(cfg, s, t, Rename))
    ensures Writable(PhaseOf(s, t).p)
  {
    ApplyRename(cfg, s, t);
    hide Enabled;
    hide Apply;
    hide ReplyOk;
    var ph, s' := s.threads[t], Apply(cfg, s, t, Rename);
    HistoryPhase(s, t);
    HistorySound(s);
    assert Writable(ph.p) by { assert Sound(ph.p); }
    hide Sound;
    hide HistoryOk;
    GotoKeeps(s, t, PutInserting(ph.p, ph.reply));
    PublishKeeps(Goto(s, t, PutInserting(ph.p, ph.reply)), s'.dir, ph.p);
  }

  lemma PublishKeeps(s: Proxy, dir: map<Name, nat>, p: PutRecord)
    requires HistoryOk(s) && p in s.puts
    ensures HistoryOk(s.(dir := dir, published := s.published + [p]))
  {
    hide PhaseOk;
    hide Sound;
    hide Backed;
    hide ServedOk;
  }

  lemma RestartKeepsHistory(cfg: Config, s: Proxy, t: nat)
    requires HistoryOk(s)
    ensures HistoryOk(Apply(cfg, s, t, Action.Restart))
  {
    hide Sound;
    hide ServedOk;
  }

  /** No step of any request, in any state, breaks the invariant, so long as writers of one hash do not meet. */
  lemma StepKeepsInv(cfg: Config, s: Proxy, t: nat, a: Action)
    requires Inv(cfg, s) && Enabled(cfg, s, t, a)
    requires SoleWriter(cfg, Apply(cfg, s, t, a))
    ensures Inv(cfg, Apply(cfg, s, t, a))
  {
    hide PrefixesOk;
    hide HistoryOk;
    hide Enabled;
    hide Apply;
    hide SoleWriter;
    if a.Open? {
      OpensAPut(cfg, s, t, a);
    }
    match a {
      case Begin(_, _, _) => LookupStepKeeps(cfg, s, t, a);
      case Probe(_) => LookupStepKeeps(cfg, s, t, a);
      case OpenFile => LookupStepKeeps(cfg, s, t, a);
      case ReadSome(_) => LookupStepKeeps(cfg, s, t, a);
      case ReadEnd => ReadEndKeeps(cfg, s, t);
      case Fill(_, _) => LookupStepKeeps(cfg, s, t, a);
      case NotModified(_) => OriginStepKeeps(cfg, s, t, a);
      case Modified(_, _, _) => OriginStepKeeps(cfg, s, t, a);
      case RevalidationFailed => OriginStepKeeps(cfg, s, t, a);
      case Head(_, _) => OriginStepKeeps(cfg, s, t, a);
      case Store(_, _) => OriginStepKeeps(cfg, s, t, a);
      case Abandon => OriginStepKeeps(cfg, s, t, a);
      case Rename => RenameKeepsHistory(cfg, s, t);
      case Insert(memory) => InsertKeeps(cfg, s, t, memory);
      case Restart => RestartKeepsHistory(cfg, s, t);
      case _ => PutStepKeeps(cfg, s, t, a);
    }
    StepKeepsPrefixes(cfg, s, t, a);
  }

  lemma OpensAPut(cfg: Config, s: Proxy, t: nat, a: Action)
    requires HistoryOk(s) && Enabled(cfg, s, t, a) && a.Open?
    ensures t in s.threads && s.threads[t].PutOpening? && s.threads[t].p in s.puts
  {
    ApplyOpen(cfg, s, t, a.ino, a.clock);
    HistoryPhase(s, t);
    hide HistoryOk;
    hide Enabled;
  }

  lemma InitInv(cfg: Config)
    ensures Inv(cfg, INIT)
  {
    InitPrefixes(cfg);
    hide PrefixesOk;
  }

  lemma {:induction false} RunKeepsInv(cfg: Config, states: seq<Proxy>, turns: seq<Turn>, n: nat)
    requires SoleWriterRun(cfg, states, turns) && n <= |turns|
    ensures Inv(cfg, states[n])
  {
    hide Inv;
    hide Enabled;
    hide Apply;
    hide SoleWriter;
    if n == 0 {
      InitInv(cfg);
    } else {
      RunKeepsInv(cfg, states, turns, n - 1);
      assert states[n - 1] in states && states[n] in states;
      StepKeepsInv(cfg, states[n - 1], turns[n - 1].thread, turns[n - 1].action);
    }
  }

  // ---------- Main results ----------

  /**
   Key isolation: in every run in which no two puts of one hash write at once, whatever is in memory,
   whatever a file reads as at any moment - while it is written, or emptied by the next put - and
   whatever a reader has read of a file that has meanwhile been replaced, was put under exactly that
   key, though hashes collide; and no read panics.
   */
  lemma TiersHoldOnlyPuts(cfg: Config, states: seq<Proxy>, turns: seq<Turn>, n: nat, key: string, t: nat)
    requires SoleWriterRun(cfg, states, turns) && n <= |turns|
    ensures key in states[n].memory ==> Backed(states[n].puts, key, states[n].memory[key])
    ensures var found := DiskGet(cfg.hash, View(states[n]), key);
            found.Some? ==> Backed(states[n].puts, key, found.value)
    ensures !DiskPanics(cfg.hash, View(states[n]), key)
    ensures var ph := PhaseOf(states[n], t); ph.Filling? ==> Backed(states[n].puts, ph.key, ph.v)
  {
    hide PrefixesOk;
    hide HistoryOk;
    hide DiskGet;
    hide DiskPanics;
    RunKeepsInv(cfg, states, turns, n);
    var s := states[n];
    HistoryMemory(s);
    HistoryPhase(s, t);
    FileIsBacked(cfg, s, key);
  }

  lemma FileIsBacked(cfg: Config, s: Proxy, key: string)
    requires Inv(cfg, s)
    ensures !DiskPanics(cfg.hash, View(s), key)
    ensures var found := DiskGet(cfg.hash, View(s), key); found.Some? ==> Backed(s.puts, key, found.value)
  {
    hide Decoding;
    hide HistoryOk;
    hide PrefixOfPut;
    hide Backed;
    hide HandleOk;
    hide OwnInodes;
    hide Linked;
    var name := EntryFile(cfg.hash(key));
    if name in View(s) {
      var bytes := View(s)[name].bytes;
      assert PrefixOfPut(s.puts, bytes);
      PrefixIsBacked(s, bytes, key);
    }
  }

  /** A response served as fresh was put at an earlier step of the run, under its key, and has not expired. */
  lemma FreshWasPut(cfg: Config, states: seq<Proxy>, turns: seq<Turn>, n: nat, x: Served) returns (i: nat, p: PutRecord)
    requires SoleWriterRun(cfg, states, turns) && n <= |turns|
    requires x in states[n].served && x.ServedFresh?
    ensures i < n && BegunAt(states, turns, i, p)
    ensures p.key == x.key && p.v.response == x.response && x.now < p.v.expiry
  {
    hide PrefixesOk;
    hide SoleWriter;
    hide Enabled;
    hide Apply;
    hide Begins;
    hide StoredTtl;
    hide DeclaredMaxAge;
    hide Fits;
    hide PhaseOk;
    RunKeepsInv(cfg, states, turns, n);
    assert ServedOk(states[n].puts, x);
    p :| p in states[n].puts && FreshFrom(p, x.key, x.now, x.response);
    assert Sound(p);
    i := BegunSomewhere(cfg, states, turns, n, p);
  }

  // ---------- Where lifetimes come from ----------

  /** A put whose response gives back exactly the lifetime it is stored with. */
  predicate Lawful(p: PutRecord) {
    StoredTtl(p.v.response) == Some(p.ttl)
  }

  /** A store whose captured headers, read again, still let the response be cached. */
  ghost predicate HonestStore(s: Proxy, turn: Turn) {
    var ph := PhaseOf(s, turn.thread);
    turn.action.Store? && ph.Capturing? ==> VaryCacheable(FirstValue(ph.headers, "vary"))
  }

  ghost predicate AllLawful(states: seq<Proxy>, turns: seq<Turn>)
    requires |states| == |turns| + 1
  {
    forall i, p | 0 <= i < |turns| && BegunAt(states, turns, i, p) :: Lawful(p)
  }

  ghost predicate AllHonest(states: seq<Proxy>, turns: seq<Turn>)
    requires |states| == |turns| + 1
  {
    forall i | 0 <= i < |turns| :: HonestStore(states[i], turns[i])
  }

  /** A store begins a lawful put exactly when it is honest; a replacement always does. */
  lemma LawfulStep(cfg: Config, s: Proxy, t: nat, a: Action)
    requires HistoryOk(s) && Enabled(cfg, s, t, a) && Begins(s, t, a).Some?
    ensures a.Store? ==> (Lawful(Begins(s, t, a).value) <==> HonestStore(s, Turn(t, a)))
    ensures a.Modified? ==> Lawful(Begins(s, t, a).value)
    ensures a.NotModified? ==> (Lawful(Begins(s, t, a).value) <==> StoredTtl(PhaseOf(s, t).hit).Some?)
  {
    hide StoredTtl;
    hide DeclaredMaxAge;
    hide Fits;
    hide Captured;
    hide VaryCacheable;
    hide FirstValue;
    hide HistoryOk;
    HistoryPhase(s, t);
    if a.Store? {
      LifetimeIgnoresBody(PhaseOf(s, t).headers, a.body);
    }
  }

  lemma {:induction false} HonestIsLawful(cfg: Config, states: seq<Proxy>, turns: seq<Turn>, n: nat)
    requires SoleWriterRun(cfg, states, turns) && n <= |turns| && AllHonest(states, turns)
    ensures forall p | p in states[n].puts :: Lawful(p)
  {
    hide Inv;
    hide Enabled;
    hide Apply;
    hide SoleWriter;
    hide StoredTtl;
    hide Begins;
    if n > 0 {
      var s, t, a := states[n - 1], turns[n - 1].thread, turns[n - 1].action;
      HonestIsLawful(cfg, states, turns, n - 1);
      HistoryStep(cfg, s, t, a);
      if Begins(s, t, a).Some? {
        RunKeepsInv(cfg, states, turns, n - 1);
        assert HistoryOk(s) by { InvParts(cfg, s); }
        LawfulStep(cfg, s, t, a);
        assert HonestStore(s, turns[n - 1]);
        if a.NotModified? {
          var q := HitWasPut(cfg, s, t, a);
          assert Lawful(q);
        } else {
          BeginsBy(s, t, a);
        }
      }
    }
  }

  lemma InvParts(cfg: Config, s: Proxy)
    requires Inv(cfg, s)
    ensures PrefixesOk(cfg, s) && HistoryOk(s)
  {
  }

  lemma BeginsBy(s: Proxy, t: nat, a: Action)
    requires Begins(s, t, a).Some?
    ensures a.NotModified? || a.Modified? || a.Store?
  {
  }

  /** The response a refresh stores again was put before. */
  lemma HitWasPut(cfg: Config, s: Proxy, t: nat, a: Action) returns (q: PutRecord)
    requires HistoryOk(s) && Enabled(cfg, s, t, a) && a.NotModified?
    ensures Begins(s, t, a).Some? && q in s.puts
    ensures PhaseOf(s, t).Revalidating? && q.v.response == PhaseOf(s, t).hit && q.key == PhaseOf(s, t).key
    ensures Begins(s, t, a).value.key == q.key && Begins(s, t, a).value.v.response == q.v.response
  {
    hide StoredTtl;
    hide HistoryOk;
    hide Writable;
    HistoryPhase(s, t);
    var ph := PhaseOf(s, t);
    q :| q in s.puts && StoredBy(q, ph.key, ph.hit);
  }

  /**
   The exact condition for stored lifetimes: all puts of a run store a response that gives back exactly
   the lifetime it is stored with - so that no refresh takes the 60-second default - if and only if
   every response stored on a miss is one whose first captured `Vary` is cacheable.
   */
  lemma StoredEntriesAreLawful(cfg: Config, states: seq<Proxy>, turns: seq<Turn>)
    requires SoleWriterRun(cfg, states, turns)
    ensures AllLawful(states, turns) <==> AllHonest(states, turns)
  {
    hide SoleWriter;
    hide Lawful;
    hide HonestStore;
    hide Enabled;
    hide Apply;
    if AllHonest(states, turns) {
      HonestIsLawful(cfg, states, turns, |turns|);
      forall i, p | 0 <= i < |turns| && BegunAt(states, turns, i, p) ensures Lawful(p) {
        HonestIsLawful(cfg, states, turns, i + 1);
        HistoryStep(cfg, states[i], turns[i].thread, turns[i].action);
      }
    } else {
      var i :| 0 <= i < |turns| && !HonestStore(states[i], turns[i]);
      DishonestIsUnlawful(cfg, states, turns, i);
    }
  }

  lemma DishonestIsUnlawful(cfg: Config, states: seq<Proxy>, turns: seq<Turn>, i: nat)
    requires SoleWriterRun(cfg, states, turns) && i < |turns| && !HonestStore(states[i], turns[i])
    ensures exists p :: BegunAt(states, turns, i, p) && !Lawful(p)
  {
    hide SoleWriter;
    hide Inv;
    hide StoredTtl;
    hide VaryCacheable;
    hide FirstValue;
    var s, t, a := states[i], turns[i].thread, turns[i].action;
    RunKeepsInv(cfg, states, turns, i);
    InvParts(cfg, s);
    RunStep(cfg, states, turns, i);
    hide Enabled;
    hide Apply;
    assert Begins(s, t, a).Some?;
    LawfulStep(cfg, s, t, a);
    assert BegunAt(states, turns, i, Begins(s, t, a).value);
  }

  // ---------- Where stored cookies come from ----------

  /** A revalidation whose changed response is stored, and sets a cookie. */
  ghost predicate StoresCookie(s: Proxy, turn: Turn) {
    && turn.action.Modified? && Begins(s, turn.thread, turn.action).Some?
    && SetsCookie(Latest(turn.action.headers, turn.action.body))
  }

  /** A put begun by a store sets no cookie; one begun by a replacement stores what the origin sent. */
  lemma CookieStep(cfg: Config, s: Proxy, t: nat, a: Action)
    requires HistoryOk(s) && Enabled(cfg, s, t, a) && Begins(s, t, a).Some?
    ensures a.Store? ==> !SetsCookie(Begins(s, t, a).value.v.response)
    ensures a.Modified? ==> Begins(s, t, a).value.v.response == Latest(a.headers, a.body)
  {
    hide StoredTtl;
    hide DeclaredMaxAge;
    hide Fits;
    hide Captured;
    hide VaryCacheable;
    hide FirstValue;
    hide HistoryOk;
    HistoryPhase(s, t);
    if a.Store? {
      LifetimeIgnoresBody(PhaseOf(s, t).headers, a.body);
    }
  }

  /** Follow a stored cookie back through refreshes to the replacement that brought it. */
  lemma {:induction false} CookieTraced(cfg: Config, states: seq<Proxy>, turns: seq<Turn>, i: nat, p: PutRecord)
    requires SoleWriterRun(cfg, states, turns) && i < |turns| && BegunAt(states, turns, i, p)
    requires SetsCookie(p.v.response)
    ensures exists j, q :: 0 <= j <= i && BegunAt(states, turns, j, q) && StoresCookie(states[j], turns[j])
              && q.key == p.key && q.v.response == p.v.response
    decreases i
  {
    hide SoleWriter;
    hide Inv;
    hide Enabled;
    hide Apply;
    hide SetsCookie;
    hide Begins;
    var s, t, a := states[i], turns[i].thread, turns[i].action;
    RunKeepsInv(cfg, states, turns, i);
    InvParts(cfg, s);
    BeginsBy(s, t, a);
    CookieStep(cfg, s, t, a);
    if a.NotModified? {
      var q := HitWasPut(cfg, s, t, a);
      var k := BegunSomewhere(cfg, states, turns, i, q);
      CookieTraced(cfg, states, turns, k, q);
    }
  }

  /**
   The exact condition for stored cookies: a run puts a response that sets a cookie if and only if it
   stores a changed response that a revalidation brought with one; every such put traces back to
   one of those, under the same key and with the same response.
   */
  lemma CookiesComeFromRevalidation(cfg: Config, states: seq<Proxy>, turns: seq<Turn>)
    requires SoleWriterRun(cfg, states, turns)
    ensures (exists i, p :: 0 <= i < |turns| && BegunAt(states, turns, i, p) && SetsCookie(p.v.response))
       <==> (exists j :: 0 <= j < |turns| && StoresCookie(states[j], turns[j]))
  {
    hide SoleWriter;
    hide Enabled;
    hide Apply;
    hide SetsCookie;
    if i, p :| 0 <= i < |turns| && BegunAt(states, turns, i, p) && SetsCookie(p.v.response) {
      CookieTraced(cfg, states, turns, i, p);
    }
    if j :| 0 <= j < |turns| && StoresCookie(states[j], turns[j]) {
      var s, t, a := states[j], turns[j].thread, turns[j].action;
      RunKeepsInv(cfg, states, turns, j);
      InvParts(cfg, s);
      CookieStep(cfg, s, t, a);
      assert BegunAt(states, turns, j, Begins(s, t, a).value);
    }
  }

  // ---------- Files that are whole ----------

  lemma {:induction false} RunKeepsFiles(cfg: Config, states: seq<Proxy>, turns: seq<Turn>, n: nat)
    requires ExclusiveRun(cfg, states, turns) && n <= |turns|
    ensures FilesOk(cfg, states[n]) && HistoryOk(states[n])
  {
    hide FilesOk;
    hide Enabled;
    hide Apply;
    hide SoleWriter;
    hide Exclusive;
    hide HistoryOk;
    hide PrefixesOk;
    ExclusiveIsSole(cfg, states, turns);
    RunKeepsInv(cfg, states, turns, n);
    if n == 0 {
      InitFiles(cfg);
    } else {
      var s, t, a := states[n - 1], turns[n - 1].thread, turns[n - 1].action;
      RunKeepsFiles(cfg, states, turns, n - 1);
      assert s in states && states[n] in states;
      if a.Rename? {
        RenameKeepsHistory(cfg, s, t);
      }
      StepKeepsFiles(cfg, s, t, a);
    }
  }

  /** Who holds a temporary file alone writes alone. */
  lemma ExclusiveIsSole(cfg: Config, states: seq<Proxy>, turns: seq<Turn>)
    requires ExclusiveRun(cfg, states, turns)
    ensures SoleWriterRun(cfg, states, turns)
  {
    hide ProxyMachine.Run;
    forall s | s in states ensures SoleWriter(cfg, s) {
      assert Exclusive(cfg, s);
    }
  }
}
