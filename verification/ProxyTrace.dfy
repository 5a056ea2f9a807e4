/**
 What the steps of a run say about its puts and its answers, told by the messages alone: which request a
 thread is serving, which clock a lifetime was counted from, what the origin had sent. A response served as
 fresh is fresh by those clocks.
 */
module ProxyTrace {
  import opened Base
  import opened Codec
  import opened Policy
  import opened HeaderText
  import opened CacheStore
  import opened ProxyMachine
  import opened ProxyFiles
  import opened FilePrefixes
  import opened ProxyResults
  import opened RequestFlow

  // ---------- The request a thread is serving ----------

  /** Between two steps the process did not restart, and the thread began no other request. */
  ghost predicate Uninterrupted(turns: seq<Turn>, j: nat, i: nat, t: nat)
    requires i <= |turns|
  {
    forall k | j < k < i :: turns[k].action != Action.Restart && (turns[k].thread == t ==> !turns[k].action.Begin?)
  }

  /** Before step `i`, the thread last began a request at step `j`: with this key, at this time. */
  ghost predicate Asked(turns: seq<Turn>, j: nat, i: nat, t: nat, l: Listener, key: string, now: Time) {
    j < i <= |turns| && turns[j] == Turn(t, Begin(l, key, now)) && Uninterrupted(turns, j, i, t)
  }

  /** What a phase still knows of its request. */
  predicate Serves(ph: Phase, l: Listener, key: string, now: Time) {
    match ph
    case Idle => false
    case Probing(l', key', now') => l' == l && key' == key && now' == now
    case Opening(l', key', now') => l' == l && key' == key && now' == now
    case Reading(l', key', now', _, _, _) => l' == l && key' == key && now' == now
    case Filling(l', key', now', _, _) => l' == l && key' == key && now' == now
    case Revalidating(l', key', now', _) => l' == l && key' == key && now' == now
    case Fetching(key') => key' == key
    case Capturing(key', _, _, _) => key' == key
    case PutEvicting(p, _) => p.key == key
    case PutOpening(p, _) => p.key == key
    case PutWriting(p, _, _, _) => p.key == key
    case PutRenaming(p, _, _) => p.key == key
    case PutInserting(p, _) => p.key == key
  }

  lemma FoundPhase(s: Proxy, t: nat, l: Listener, key: string, now: Time, v: Stored, hasTarget: bool)
    ensures var s' := Found(s, t, l, key, now, v, hasTarget);
            && (PhaseOf(s', t).Idle? || Serves(PhaseOf(s', t), l, key, now))
            && forall u | u != t :: PhaseOf(s', u) == PhaseOf(s, u)
  {
    hide Etag;
  }

  /** A step leaves the other threads where they are. */
  lemma OtherThread(cfg: Config, s: Proxy, t: nat, a: Action, u: nat)
    requires Enabled(cfg, s, t, a) && a != Action.Restart && u != t
    ensures PhaseOf(Apply(cfg, s, t, a), u) == PhaseOf(s, u)
  {
    hide Found;
    hide AfterRead;
    hide FileOf;
    hide Inserted;
    hide StoredTtl;
    hide CaptureTtl;
    hide Captured;
    hide Writable;
    hide WriteAt;
    if a.Probe? || a.Fill? {
      forall s: Proxy, l, key, now, v, hasTarget ensures PhaseOf(Found(s, t, l, key, now, v, hasTarget), u) == PhaseOf(s, u) {
        FoundPhase(s, t, l, key, now, v, hasTarget);
      }
    }
  }

  lemma LookupStays(cfg: Config, s: Proxy, t: nat, a: Action, l: Listener, key: string, now: Time)
    requires Enabled(cfg, s, t, a) && (a.Probe? || a.Fill?) && Serves(PhaseOf(s, t), l, key, now)
    ensures var ph := PhaseOf(Apply(cfg, s, t, a), t); ph.Idle? || Serves(ph, l, key, now)
  {
    hide Found;
    hide Inserted;
    forall s: Proxy, v, hasTarget
      ensures var ph := PhaseOf(Found(s, t, l, key, now, v, hasTarget), t); ph.Idle? || Serves(ph, l, key, now)
    {
      FoundPhase(s, t, l, key, now, v, hasTarget);
    }
  }

  lemma OriginStays(cfg: Config, s: Proxy, t: nat, a: Action, l: Listener, key: string, now: Time)
    requires Enabled(cfg, s, t, a) && Serves(PhaseOf(s, t), l, key, now)
    requires a.NotModified? || a.Modified? || a.RevalidationFailed? || a.Head? || a.Store? || a.Abandon?
    ensures var ph := PhaseOf(Apply(cfg, s, t, a), t); ph.Idle? || Serves(ph, l, key, now)
  {
    hide StoredTtl;
    hide CaptureTtl;
    hide Captured;
    hide Writable;
  }

  lemma FileStays(cfg: Config, s: Proxy, t: nat, a: Action, l: Listener, key: string, now: Time)
    requires Enabled(cfg, s, t, a) && Serves(PhaseOf(s, t), l, key, now)
    requires a.OpenFile? || a.ReadSome? || a.ReadEnd? || a.Evict? || a.Open? || a.Write? || a.Rename? || a.DiskFault? || a.Insert?
    ensures var ph := PhaseOf(Apply(cfg, s, t, a), t); ph.Idle? || Serves(ph, l, key, now)
  {
    hide Decoding;
    hide FileOf;
    hide Inserted;
    hide WriteAt;
  }

  /** A step of a request stays with the request. */
  lemma StaysWithRequest(cfg: Config, s: Proxy, t: nat, a: Action, l: Listener, key: string, now: Time)
    requires Enabled(cfg, s, t, a) && a != Action.Restart && !a.Begin? && Serves(PhaseOf(s, t), l, key, now)
    ensures var ph := PhaseOf(Apply(cfg, s, t, a), t); ph.Idle? || Serves(ph, l, key, now)
  {
    hide *;
    if a.Probe? || a.Fill? {
      LookupStays(cfg, s, t, a, l, key, now);
    } else if a.NotModified? || a.Modified? || a.RevalidationFailed? || a.Head? || a.Store? || a.Abandon? {
      OriginStays(cfg, s, t, a, l, key, now);
    } else {
      FileStays(cfg, s, t, a, l, key, now);
    }
  }

  lemma BusyStep(cfg: Config, s: Proxy, t: nat, a: Action)
    requires Enabled(cfg, s, t, a) && !a.Begin? && !a.Restart?
    ensures !PhaseOf(s, t).Idle?
  {
    hide Inserted;
    hide Writable;
    hide FileOf;
  }

  lemma StartsIdle(cfg: Config, states: seq<Proxy>, turns: seq<Turn>, t: nat)
    requires ProxyMachine.Run(cfg, states, turns)
    ensures PhaseOf(states[0], t).Idle?
  {
    hide Enabled;
    hide Apply;
  }

  lemma RestartIdles(cfg: Config, s: Proxy, t: nat, u: nat)
    ensures PhaseOf(Apply(cfg, s, t, Action.Restart), u).Idle?
  {
    ApplyRestart(cfg, s, t);
    hide Apply;
  }

  lemma BeginServes(cfg: Config, s: Proxy, t: nat, l: Listener, key: string, now: Time)
    requires Enabled(cfg, s, t, Begin(l, key, now))
    ensures Serves(PhaseOf(Apply(cfg, s, t, Begin(l, key, now)), t), l, key, now)
  {
  }

  /** Every thread at work is serving the request it last began. */
  lemma {:induction false} RequestOf(cfg: Config, states: seq<Proxy>, turns: seq<Turn>, n: nat, t: nat)
    returns (j: nat, l: Listener, key: string, now: Time)
    requires ProxyMachine.Run(cfg, states, turns) && n <= |turns| && !PhaseOf(states[n], t).Idle?
    ensures Asked(turns, j, n, t, l, key, now) && Serves(PhaseOf(states[n], t), l, key, now)
  {
    hide Enabled;
    hide Apply;
    hide Serves;
    StartsIdle(cfg, states, turns, t);
    RunStep(cfg, states, turns, n - 1);
    hide ProxyMachine.Run;
    var s, u, a := states[n - 1], turns[n - 1].thread, turns[n - 1].action;
    if a == Action.Restart {
      RestartIdles(cfg, s, u, t);
      assert false;
    } else if u != t {
      OtherThread(cfg, s, u, a, t);
      j, l, key, now := RequestOf(cfg, states, turns, n - 1, t);
    } else if a.Begin? {
      j, l, key, now := n - 1, a.l, a.key, a.now;
      BeginServes(cfg, s, t, l, key, now);
    } else {
      BusyStep(cfg, s, t, a);
      j, l, key, now := RequestOf(cfg, states, turns, n - 1, t);
      StaysWithRequest(cfg, s, t, a, l, key, now);
    }
  }

  // ---------- The response head a thread is capturing after ----------

  /** The thread's last step before `i` was to receive this response head, at step `h`. */
  ghost predicate HeadAt(turns: seq<Turn>, h: nat, i: nat, t: nat, status: u16, raw: seq<Header>) {
    && h < i <= |turns| && turns[h] == Turn(t, Head(status, raw))
    && forall k | h < k < i :: turns[k].thread != t && turns[k].action != Action.Restart
  }

  predicate CapturesHead(ph: Phase, status: u16, raw: seq<Header>) {
    ph.Capturing? && ph.status == status && ph.headers == Captured(raw) && CaptureTtl(status, raw) == Some(ph.ttl)
  }

  lemma OnlyHeadsAreCaptured(cfg: Config, s: Proxy, t: nat, a: Action)
    requires Enabled(cfg, s, t, a) && PhaseOf(Apply(cfg, s, t, a), t).Capturing?
    ensures a.Head? && CapturesHead(PhaseOf(Apply(cfg, s, t, a), t), a.status, a.headers)
  {
    hide Decoding;
    hide FileOf;
    hide Inserted;
    hide StoredTtl;
    hide CaptureTtl;
    hide Captured;
    hide Writable;
    hide WriteAt;
    hide Etag;
  }

  lemma {:induction false} HeadOf(cfg: Config, states: seq<Proxy>, turns: seq<Turn>, n: nat, t: nat)
    returns (h: nat, status: u16, raw: seq<Header>)
    requires ProxyMachine.Run(cfg, states, turns) && n <= |turns| && PhaseOf(states[n], t).Capturing?
    ensures HeadAt(turns, h, n, t, status, raw) && CapturesHead(PhaseOf(states[n], t), status, raw)
  {
    hide Enabled;
    hide Apply;
    hide CapturesHead;
    StartsIdle(cfg, states, turns, t);
    RunStep(cfg, states, turns, n - 1);
    hide ProxyMachine.Run;
    var s, u, a := states[n - 1], turns[n - 1].thread, turns[n - 1].action;
    if a == Action.Restart {
      RestartIdles(cfg, s, u, t);
      assert false;
    } else if u != t {
      OtherThread(cfg, s, u, a, t);
      h, status, raw := HeadOf(cfg, states, turns, n - 1, t);
    } else {
      OnlyHeadsAreCaptured(cfg, s, t, a);
      h, status, raw := n - 1, a.status, a.headers;
    }
  }

  // ---------- Every put, told by the messages ----------

  /**
   The time a lifetime counts from: the clock when the response is stored or the origin has answered, but
   for a revalidation on HTTP/3 the arrival of the request.
   */
  function StartOf(l: Listener, now: Time, a: Action): Time {
    match a
    case Store(clock, _) => clock
    case NotModified(clock) => if l == Http3 then now else clock
    case Modified(clock, _, _) => if l == Http3 then now else clock
    case _ => 0
  }

  /**
   What step `i`, of a request that arrived at `now`, puts: what the origin sent, for as long as it lets it be
   stored; what it sent as changed, for as long as its stored headers give back; or a response that it
   confirmed, for as long as those say or else for a minute.
   */
  ghost predicate PutMade(turns: seq<Turn>, i: nat, l: Listener, now: Time, v: Stored, n: nat)
    requires i < |turns|
  {
    && v.expiry == StartOf(l, now, turns[i].action) + n * NANOS
    && match turns[i].action
       case Store(_, body) =>
         exists h, status, raw :: HeadAt(turns, h, i, turns[i].thread, status, raw) && MayStore(status, raw, n)
                                  && v.response == Response(200, Captured(raw), body)
       case Modified(_, raw, body) => GivesBack(Captured(raw), n) && v.response == Response(200, Captured(raw), body)
       case NotModified(_) => RefreshedFor(v.response, n)
       case _ => false
  }

  lemma StoreIsMade(cfg: Config, states: seq<Proxy>, turns: seq<Turn>, i: nat, l: Listener, now: Time, p: PutRecord)
    returns (n: nat)
    requires ProxyMachine.Run(cfg, states, turns) && i < |turns| && BegunAt(states, turns, i, p) && turns[i].action.Store?
    ensures PutMade(turns, i, l, now, p.v, n)
  {
    hide Enabled;
    hide Apply;
    hide StoredTtl;
    hide CaptureTtl;
    hide Captured;
    hide MayStore;
    hide HeadAt;
    var ph := PhaseOf(states[i], turns[i].thread);
    var h, status, raw := HeadOf(cfg, states, turns, i, turns[i].thread);
    hide ProxyMachine.Run;
    n := ph.ttl;
    CaptureTtlExactly(status, raw, n);
    MayStoreIs200(status, raw, n);
  }

  lemma MayStoreIs200(status: u16, raw: seq<Header>, n: nat)
    requires MayStore(status, raw, n)
    ensures status == 200
  {
  }

  lemma RefreshIsMade(states: seq<Proxy>, turns: seq<Turn>, i: nat, l: Listener, key: string, now: Time, p: PutRecord)
    returns (n: nat)
    requires i < |turns| < |states| && BegunAt(states, turns, i, p) && turns[i].action.NotModified?
    requires Serves(PhaseOf(states[i], turns[i].thread), l, key, now)
    ensures PutMade(turns, i, l, now, p.v, n) && p.key == key
  {
    hide StoredTtl;
    hide GivesBack;
    var hit := PhaseOf(states[i], turns[i].thread).hit;
    var stored := StoredTtl(hit);
    n := if stored.Some? then stored.value else 60;
    StoredTtlNever(hit);
    StoredTtlExactly(hit, n);
    assert RefreshedFor(hit, n);
  }

  lemma ReplacementIsMade(states: seq<Proxy>, turns: seq<Turn>, i: nat, l: Listener, key: string, now: Time, p: PutRecord)
    returns (n: nat)
    requires i < |turns| < |states| && BegunAt(states, turns, i, p) && turns[i].action.Modified?
    requires Serves(PhaseOf(states[i], turns[i].thread), l, key, now)
    ensures PutMade(turns, i, l, now, p.v, n) && p.key == key
  {
    hide StoredTtl;
    hide GivesBack;
    hide Captured;
    var latest := Latest(turns[i].action.headers, turns[i].action.body);
    n := StoredTtl(latest).value;
    StoredTtlExactly(latest, n);
  }

  lemma StoreKey(states: seq<Proxy>, turns: seq<Turn>, i: nat, l: Listener, key: string, now: Time, p: PutRecord)
    requires i < |turns| < |states| && BegunAt(states, turns, i, p) && turns[i].action.Store?
    requires Serves(PhaseOf(states[i], turns[i].thread), l, key, now)
    ensures p.key == key
  {
    hide StoredTtl;
    hide Captured;
  }

  lemma BusyAt(states: seq<Proxy>, turns: seq<Turn>, i: nat, p: PutRecord)
    requires i < |turns| < |states| && BegunAt(states, turns, i, p)
    ensures !PhaseOf(states[i], turns[i].thread).Idle?
    ensures turns[i].action.Store? || turns[i].action.Modified? || turns[i].action.NotModified?
  {
    hide StoredTtl;
    hide Captured;
  }

  lemma PutIsMade(cfg: Config, states: seq<Proxy>, turns: seq<Turn>, i: nat, p: PutRecord)
    returns (j: nat, l: Listener, now: Time, n: nat)
    requires ProxyMachine.Run(cfg, states, turns) && i < |turns| && BegunAt(states, turns, i, p)
    ensures Asked(turns, j, i, turns[i].thread, l, p.key, now) && PutMade(turns, i, l, now, p.v, n)
  {
    BusyAt(states, turns, i, p);
    hide *;
    RunLengths(cfg, states, turns);
    var key;
    j, l, key, now := RequestOf(cfg, states, turns, i, turns[i].thread);
    if turns[i].action.Store? {
      StoreKey(states, turns, i, l, key, now, p);
      n := StoreIsMade(cfg, states, turns, i, l, now, p);
    } else if turns[i].action.Modified? {
      n := ReplacementIsMade(states, turns, i, l, key, now, p);
    } else {
      n := RefreshIsMade(states, turns, i, l, key, now, p);
    }
  }

  /** Every put of any run, told by its messages: what it puts, under which key, and when that expires. */
  lemma PutsExactly(cfg: Config, states: seq<Proxy>, turns: seq<Turn>, i: nat, p: PutRecord)
    requires ProxyMachine.Run(cfg, states, turns) && i < |turns| && BegunAt(states, turns, i, p)
    ensures exists j, l, now, n :: Asked(turns, j, i, turns[i].thread, l, p.key, now) && PutMade(turns, i, l, now, p.v, n)
  {
    var j, l, now, n := PutIsMade(cfg, states, turns, i, p);
    hide *;
  }

  /** Whatever is put, an origin has sent it, in answer to a request with that key. */
  lemma {:induction false} ResponsesComeFromOrigins(cfg: Config, states: seq<Proxy>, turns: seq<Turn>, i: nat, p: PutRecord)
    requires SoleWriterRun(cfg, states, turns) && i < |turns| && BegunAt(states, turns, i, p)
    ensures exists k, q :: 0 <= k <= i && BegunAt(states, turns, k, q) && (turns[k].action.Store? || turns[k].action.Modified?)
              && q.key == p.key && q.v.response == p.v.response
    decreases i
  {
    BusyAt(states, turns, i, p);
    if turns[i].action.NotModified? {
      hide Inv;
      hide Enabled;
      hide Apply;
      hide SoleWriter;
      hide Begins;
      RunKeepsInv(cfg, states, turns, i);
      InvParts(cfg, states[i]);
      var q := HitWasPut(cfg, states[i], turns[i].thread, turns[i].action);
      var k := BegunSomewhere(cfg, states, turns, i, q);
      ResponsesComeFromOrigins(cfg, states, turns, k, q);
    }
  }

  lemma RunLengths(cfg: Config, states: seq<Proxy>, turns: seq<Turn>)
    requires ProxyMachine.Run(cfg, states, turns)
    ensures |states| == |turns| + 1
  {
    hide Enabled;
    hide Apply;
  }

  // ---------- Freshness by the clocks ----------

  /** The lifetime is the response's own, or a minute for one whose headers no longer let it be kept. */
  ghost predicate OwnAge(r: Response, n: nat) {
    || (exists cc :: First(r.headers, "cache-control", cc) && Permits(cc, n))
    || (n == 60 && forall m: nat :: !GivesBack(r.headers, m))
  }

  lemma CapturedKeepsAge(status: u16, raw: seq<Header>, body: seq<byte>, n: nat)
    requires MayStore(status, raw, n)
    ensures OwnAge(Response(200, Captured(raw), body), n)
  {
    HeaderNames();
    KeptNames();
    FirstValueOfCaptured(raw, "cache-control");
    FirstVisibleOfFirst(raw, "cache-control");
    var cc :| First(raw, "cache-control", cc) && Visible(cc) && Permits(cc, n);
    FirstValueExactly(raw, "cache-control", cc);
    FirstValueExactly(Captured(raw), "cache-control", cc);
    hide First;
    hide FirstValue;
    hide FirstVisible;
    hide Captured;
    hide Visible;
    hide Permits;
    hide Without;
    hide GivesBack;
  }

  lemma PutHasOwnAge(turns: seq<Turn>, i: nat, l: Listener, now: Time, v: Stored, n: nat)
    requires i < |turns| && PutMade(turns, i, l, now, v, n)
    ensures OwnAge(v.response, n)
  {
    hide MayStore;
    hide Captured;
    hide HeadAt;
    hide Permits;
    hide First;
    hide VariesOnCoding;
    if turns[i].action.Store? {
      var h, status, raw :| HeadAt(turns, h, i, turns[i].thread, status, raw) && MayStore(status, raw, n)
                            && v.response == Response(200, Captured(raw), turns[i].action.body);
      CapturedKeepsAge(status, raw, turns[i].action.body, n);
    }
  }

  /** Fresh by the clocks: put at an earlier step of the run under the key, less than its own lifetime ago. */
  ghost predicate FreshByTheClock(turns: seq<Turn>, i: nat, j: nat, l: Listener, now: Time, n: nat, v: Stored, x: Served)
    requires i < |turns| && x.ServedFresh?
  {
    && Asked(turns, j, i, turns[i].thread, l, x.key, now)
    && PutMade(turns, i, l, now, v, n) && v.response == x.response && OwnAge(x.response, n)
    && x.now < StartOf(l, now, turns[i].action) + n * NANOS
  }

  /**
   Whole-run freshness (section 4.2 of RFC 9111): under every interleaving of requests on both listeners,
   evictions, disk faults, partial writes and restarts in which no two puts of one hash write at once, a
   response served as fresh was stored, replaced or confirmed at an earlier step of the run, for a
   request with the same key; and the lookup came less than the `max-age` of its own stored headers after
   the clock at that step or, for a revalidation on HTTP/3, after that request arrived. Only a
   confirmed response whose headers no longer let it be stored is kept for a minute instead.
   */
  lemma WholeRunFreshness(cfg: Config, states: seq<Proxy>, turns: seq<Turn>, n: nat, x: Served)
    requires SoleWriterRun(cfg, states, turns) && n <= |turns|
    requires x in states[n].served && x.ServedFresh?
    ensures exists i, j, l, now, age, v :: 0 <= i < n && FreshByTheClock(turns, i, j, l, now, age, v, x)
  {
    var i, p := FreshWasPut(cfg, states, turns, n, x);
    assert ProxyMachine.Run(cfg, states, turns);
    hide *;
    RunLengths(cfg, states, turns);
    var j, l, now, age := PutIsMade(cfg, states, turns, i, p);
    PutHasOwnAge(turns, i, l, now, p.v, age);
    MadeExpiry(turns, i, l, now, p.v, age);
    FreshIs(turns, i, j, l, now, age, p.v, x);
  }

  lemma MadeExpiry(turns: seq<Turn>, i: nat, l: Listener, now: Time, v: Stored, n: nat)
    requires i < |turns| && PutMade(turns, i, l, now, v, n)
    ensures v.expiry == StartOf(l, now, turns[i].action) + n * NANOS
  {
    hide MayStore;
    hide GivesBack;
  }

  lemma FreshIs(turns: seq<Turn>, i: nat, j: nat, l: Listener, now: Time, n: nat, v: Stored, x: Served)
    requires i < |turns| && x.ServedFresh?
    requires Asked(turns, j, i, turns[i].thread, l, x.key, now)
    requires PutMade(turns, i, l, now, v, n) && v.response == x.response && OwnAge(x.response, n)
    requires x.now < StartOf(l, now, turns[i].action) + n * NANOS
    ensures FreshByTheClock(turns, i, j, l, now, n, v, x)
  {
    hide PutMade;
    hide OwnAge;
    hide Asked;
  }

  // ---------- Every answer, told by the messages ----------

  /** The step of this request that an answer rests on. */
  predicate RestsOn(x: Served, a: Action, now: Time) {
    match x
    case ServedFresh(_, at, _) => (a.Probe? || a.Fill?) && at == now
    case ServedValidated(_, _) => a.NotModified?
    case ServedModified(_, r) => a.Modified? && r == Response(200, Captured(a.headers), a.body)
  }

  ghost predicate AnsweredAt(turns: seq<Turn>, i: nat, j: nat, l: Listener, now: Time, x: Served) {
    && i < |turns| && Asked(turns, j, i, turns[i].thread, l, x.key, now) && RestsOn(x, turns[i].action, now)
  }

  ghost predicate Answered(turns: seq<Turn>, n: nat, x: Served) {
    exists i, j, l, now :: 0 <= i < n && AnsweredAt(turns, i, j, l, now, x)
  }

  /** The answer a thread will give when its put is done. */
  function ReplyOf(ph: Phase): Option<Served> {
    if ph.PutEvicting? || ph.PutOpening? || ph.PutWriting? || ph.PutRenaming? || ph.PutInserting? then ph.reply else None
  }

  /** An answer that this very step makes, for a request with this key and time of arrival. */
  predicate Makes(a: Action, x: Served, key: string, now: Time) {
    x.key == key && RestsOn(x, a, now)
  }

  lemma FoundServes(s: Proxy, t: nat, l: Listener, key: string, now: Time, v: Stored, hasTarget: bool, x: Served)
    requires x in Found(s, t, l, key, now, v, hasTarget).served
    ensures x in s.served || (x.ServedFresh? && x.key == key && x.now == now)
  {
    hide Etag;
  }

  /** What a step serves, it serves by itself or had promised; what it promises, it makes or had promised. */
  ghost predicate AnswerKept(s: Proxy, s': Proxy, t: nat, a: Action, key: string, now: Time, x: Served) {
    && (x in s'.served ==> x in s.served || Some(x) == ReplyOf(PhaseOf(s, t)) || Makes(a, x, key, now))
    && (Some(x) == ReplyOf(PhaseOf(s', t)) ==> Some(x) == ReplyOf(PhaseOf(s, t)) || Makes(a, x, key, now))
  }

  lemma LookupAnswers(cfg: Config, s: Proxy, t: nat, a: Action, l: Listener, key: string, now: Time, x: Served)
    requires Enabled(cfg, s, t, a) && Serves(PhaseOf(s, t), l, key, now) && (a.Probe? || a.Fill?)
    ensures AnswerKept(s, Apply(cfg, s, t, a), t, a, key, now, x)
  {
    hide Found;
    hide Inserted;
    forall s: Proxy, v, hasTarget
      ensures x in Found(s, t, l, key, now, v, hasTarget).served ==>
                x in s.served || (x.ServedFresh? && x.key == key && x.now == now)
      ensures ReplyOf(PhaseOf(Found(s, t, l, key, now, v, hasTarget), t)) == None
    {
      if x in Found(s, t, l, key, now, v, hasTarget).served {
        FoundServes(s, t, l, key, now, v, hasTarget, x);
      }
      FoundPromisesNothing(s, t, l, key, now, v, hasTarget);
    }
  }

  lemma OriginAnswers(cfg: Config, s: Proxy, t: nat, a: Action, l: Listener, key: string, now: Time, x: Served)
    requires Enabled(cfg, s, t, a) && Serves(PhaseOf(s, t), l, key, now)
    requires a.NotModified? || a.Modified? || a.RevalidationFailed? || a.Head? || a.Store? || a.Abandon?
    ensures AnswerKept(s, Apply(cfg, s, t, a), t, a, key, now, x)
  {
    hide StoredTtl;
    hide CaptureTtl;
    hide Captured;
    hide Writable;
  }

  lemma FileAnswers(cfg: Config, s: Proxy, t: nat, a: Action, l: Listener, key: string, now: Time, x: Served)
    requires Enabled(cfg, s, t, a) && Serves(PhaseOf(s, t), l, key, now)
    requires a.OpenFile? || a.ReadSome? || a.ReadEnd? || a.Evict? || a.Open? || a.Write? || a.Rename? || a.DiskFault? || a.Insert?
    ensures AnswerKept(s, Apply(cfg, s, t, a), t, a, key, now, x)
  {
    hide Decoding;
    hide FileOf;
    hide Inserted;
    hide WriteAt;
  }

  lemma AnswerStep(cfg: Config, s: Proxy, t: nat, a: Action, l: Listener, key: string, now: Time, x: Served)
    requires Enabled(cfg, s, t, a) && Serves(PhaseOf(s, t), l, key, now) && !a.Restart? && !a.Begin?
    ensures AnswerKept(s, Apply(cfg, s, t, a), t, a, key, now, x)
  {
    hide *;
    if a.Probe? || a.Fill? {
      LookupAnswers(cfg, s, t, a, l, key, now, x);
    } else if a.NotModified? || a.Modified? || a.RevalidationFailed? || a.Head? || a.Store? || a.Abandon? {
      OriginAnswers(cfg, s, t, a, l, key, now, x);
    } else {
      FileAnswers(cfg, s, t, a, l, key, now, x);
    }
  }

  lemma FoundPromisesNothing(s: Proxy, t: nat, l: Listener, key: string, now: Time, v: Stored, hasTarget: bool)
    ensures ReplyOf(PhaseOf(Found(s, t, l, key, now, v, hasTarget), t)) == None
  {
    hide Etag;
  }

  lemma IdleStep(cfg: Config, s: Proxy, t: nat, a: Action)
    requires Enabled(cfg, s, t, a) && (a.Begin? || a.Restart?)
    ensures Apply(cfg, s, t, a).served == s.served
    ensures ReplyOf(PhaseOf(Apply(cfg, s, t, a), t)) == None
  {
  }

  ghost predicate AllAnswered(s: Proxy, turns: seq<Turn>, n: nat) {
    && (forall x | x in s.served :: Answered(turns, n, x))
    && forall t, x | Some(x) == ReplyOf(PhaseOf(s, t)) :: Answered(turns, n, x)
  }

  lemma AnsweredLater(turns: seq<Turn>, n: nat, x: Served)
    requires Answered(turns, n, x)
    ensures Answered(turns, n + 1, x)
  {
    hide AnsweredAt;
  }

  lemma AnsweredNow(turns: seq<Turn>, n: nat, j: nat, l: Listener, key: string, now: Time, x: Served)
    requires n < |turns| && Asked(turns, j, n, turns[n].thread, l, key, now) && Makes(turns[n].action, x, key, now)
    ensures Answered(turns, n + 1, x)
  {
    hide Asked;
    hide RestsOn;
    assert AnsweredAt(turns, n, j, l, now, x);
  }

  lemma {:induction false} RunIsAnswered(cfg: Config, states: seq<Proxy>, turns: seq<Turn>, n: nat)
    requires ProxyMachine.Run(cfg, states, turns) && n <= |turns|
    ensures AllAnswered(states[n], turns, n)
  {
    hide Enabled;
    hide Apply;
    hide Answered;
    hide Asked;
    hide Serves;
    if n > 0 {
      RunStep(cfg, states, turns, n - 1);
      RunIsAnswered(cfg, states, turns, n - 1);
      hide ProxyMachine.Run;
      hide AllAnswered;
      StepIsAnswered(cfg, states, turns, n - 1);
    }
  }

  lemma StepIsAnswered(cfg: Config, states: seq<Proxy>, turns: seq<Turn>, n: nat)
    requires ProxyMachine.Run(cfg, states, turns) && n < |turns| && AllAnswered(states[n], turns, n)
    ensures AllAnswered(states[n + 1], turns, n + 1)
  {
    hide Enabled;
    hide Apply;
    hide Answered;
    hide Asked;
    hide Serves;
    hide Makes;
    RunStep(cfg, states, turns, n);
    var s, s', t, a := states[n], states[n + 1], turns[n].thread, turns[n].action;
    forall x | Answered(turns, n, x) ensures Answered(turns, n + 1, x) {
      AnsweredLater(turns, n, x);
    }
    if a.Begin? || a.Restart? {
      IdleStep(cfg, s, t, a);
    } else {
      BusyStep(cfg, s, t, a);
      var j, l, key, now := RequestOf(cfg, states, turns, n, t);
      forall x | Makes(a, x, key, now) ensures Answered(turns, n + 1, x) {
        AnsweredNow(turns, n, j, l, key, now, x);
      }
      forall x | x in s'.served || Some(x) == ReplyOf(PhaseOf(s', t)) ensures Answered(turns, n + 1, x) {
        AnswerStep(cfg, s, t, a, l, key, now, x);
      }
    }
    hide ProxyMachine.Run;
    forall u, x | Some(x) == ReplyOf(PhaseOf(s', u)) ensures Answered(turns, n + 1, x) {
      if a.Restart? {
        RestartIdles(cfg, s, t, u);
      } else if u != t {
        OtherThread(cfg, s, t, a, u);
      }
    }
  }

  /**
   No answer from the cache without its reason, in any run at all: a fresh one was looked up for a request
   with its key, at the time it claims; a validated one rests on the origin's `304`, and a replaced one on
   its new response, received for such a request - so a stale response is never served unasked.
   */
  lemma AnswersHaveReasons(cfg: Config, states: seq<Proxy>, turns: seq<Turn>, n: nat, x: Served)
    requires ProxyMachine.Run(cfg, states, turns) && n <= |turns| && x in states[n].served
    ensures Answered(turns, n, x)
  {
    RunIsAnswered(cfg, states, turns, n);
    hide ProxyMachine.Run;
    hide Answered;
  }

  // ---------- A failed revalidation ----------

  /** Past the point where a request could be answered from the cache. */
  predicate Fetches(ph: Phase) {
    ph.Idle? || ph.Fetching? || ph.Capturing?
    || ((ph.PutEvicting? || ph.PutOpening? || ph.PutWriting? || ph.PutRenaming? || ph.PutInserting?) && ph.reply == None)
  }

  lemma FetchesOn(cfg: Config, s: Proxy, t: nat, a: Action)
    requires Enabled(cfg, s, t, a) && Fetches(PhaseOf(s, t)) && !a.Begin?
    ensures Fetches(PhaseOf(Apply(cfg, s, t, a), t)) && Apply(cfg, s, t, a).served == s.served
  {
    hide FileOf;
    hide Inserted;
    hide StoredTtl;
    hide CaptureTtl;
    hide Captured;
    hide Writable;
    hide WriteAt;
  }

  lemma FailureStep(cfg: Config, s: Proxy, t: nat, l: Listener, key: string, now: Time)
    requires Enabled(cfg, s, t, RevalidationFailed) && Serves(PhaseOf(s, t), l, key, now)
    ensures var s' := Apply(cfg, s, t, RevalidationFailed);
            s'.served == s.served && s'.puts == s.puts && PhaseOf(s', t) == Fetching(key)
  {
  }

  lemma {:induction false} StillFetches(cfg: Config, states: seq<Proxy>, turns: seq<Turn>, i: nat, k: nat, t: nat)
    requires ProxyMachine.Run(cfg, states, turns) && i < k <= |turns| && Fetches(PhaseOf(states[i + 1], t))
    requires forall m | i < m < k :: turns[m].thread == t ==> !turns[m].action.Begin?
    ensures Fetches(PhaseOf(states[k], t))
    decreases k
  {
    hide Enabled;
    hide Apply;
    hide Fetches;
    if k > i + 1 {
      StillFetches(cfg, states, turns, i, k - 1, t);
      RunStep(cfg, states, turns, k - 1);
      hide ProxyMachine.Run;
      var s, u, a := states[k - 1], turns[k - 1].thread, turns[k - 1].action;
      if a == Action.Restart {
        RestartIdles(cfg, s, u, t);
        IdleFetches(PhaseOf(states[k], t));
      } else if u != t {
        OtherThread(cfg, s, u, a, t);
      } else {
        FetchesOn(cfg, s, t, a);
      }
    }
  }

  lemma IdleFetches(ph: Phase)
    requires ph.Idle?
    ensures Fetches(ph)
  {
  }

  /**
   An origin that cannot be reached: the request serves and puts nothing then, goes on to fetch under its
   key, and is never answered from the cache after all.
   */
  lemma FailureFetches(cfg: Config, states: seq<Proxy>, turns: seq<Turn>, i: nat, k: nat)
    requires ProxyMachine.Run(cfg, states, turns) && i < k < |turns| && turns[i].action.RevalidationFailed?
    requires turns[k].thread == turns[i].thread
    requires forall m | i < m <= k :: turns[m].thread == turns[i].thread ==> !turns[m].action.Begin?
    ensures states[i + 1].served == states[i].served && states[i + 1].puts == states[i].puts
    ensures exists j, l, key, now :: Asked(turns, j, i, turns[i].thread, l, key, now)
                                     && PhaseOf(states[i + 1], turns[i].thread) == Fetching(key)
    ensures states[k + 1].served == states[k].served
  {
    hide Enabled;
    hide Apply;
    hide Serves;
    hide Asked;
    var t := turns[i].thread;
    RunStep(cfg, states, turns, i);
    RunStep(cfg, states, turns, k);
    BusyStep(cfg, states[i], t, turns[i].action);
    var j, l, key, now := RequestOf(cfg, states, turns, i, t);
    FailureStep(cfg, states[i], t, l, key, now);
    StillFetches(cfg, states, turns, i, k, t);
    FetchesOn(cfg, states[k], t, turns[k].action);
  }
}
