/**
 Capturing a response body for the cache while it streams to the client: the per-request context of
 the HTTP/1 and HTTP/2 listener, and the frame loop of the HTTP/3 listener.
 */
module Capture {
  import opened Base
  import opened Codec
  import opened Policy
  import opened HeaderText

  datatype CachePut = CachePut(key: string, expiry: Time, response: Response)

  /** All chunks in order. */
  function Concat(chunks: seq<seq<byte>>): seq<byte> {
    if chunks == [] then [] else chunks[0] + Concat(chunks[1..])
  }

  lemma {:induction false} ConcatSnoc(chunks: seq<seq<byte>>, last: seq<byte>)
    ensures Concat(chunks + [last]) == Concat(chunks) + last
  {
    if chunks == [] {
      assert Concat([last]) == last + Concat([]);
    } else {
      assert (chunks + [last])[1..] == chunks[1..] + [last];
      ConcatSnoc(chunks[1..], last);
    }
  }

  /** What is captured of a body: everything, as long as that is within the cap. */
  function Kept(chunks: seq<seq<byte>>, cap: nat): Option<seq<byte>> {
    if |Concat(chunks)| <= cap then Some(Concat(chunks)) else None
  }

  // ---------- The accumulator both listeners share ----------

  datatype Acc = Acc(body: seq<byte>, overflow: bool)

  function Accumulate(a: Acc, data: seq<byte>, cap: nat): Acc {
    if a.overflow then a
    else if |a.body| + |data| > cap then Acc([], true)
    else Acc(a.body + data, false)
  }

  function AccumulateAll(a: Acc, chunks: seq<seq<byte>>, cap: nat): Acc
    decreases chunks
  {
    if chunks == [] then a else AccumulateAll(Accumulate(a, chunks[0], cap), chunks[1..], cap)
  }

  lemma {:induction false} OverflowIsSticky(chunks: seq<seq<byte>>, cap: nat)
    ensures AccumulateAll(Acc([], true), chunks, cap) == Acc([], true)
  {
    if chunks != [] {
      OverflowIsSticky(chunks[1..], cap);
    }
  }

  /** However the body is cut, the accumulator ends with all of it, or overflowed and empty. */
  lemma {:induction false} ChunkingIndependent(body: seq<byte>, chunks: seq<seq<byte>>, cap: nat)
    requires |body| <= cap
    ensures AccumulateAll(Acc(body, false), chunks, cap)
         == if |body + Concat(chunks)| <= cap then Acc(body + Concat(chunks), false) else Acc([], true)
    decreases |chunks|
  {
    if chunks == [] {
      assert body + [] == body;
    } else {
      var chunk, rest := chunks[0], chunks[1..];
      assert body + Concat(chunks) == (body + chunk) + Concat(rest);
      if |body| + |chunk| > cap {
        OverflowIsSticky(rest, cap);
      } else {
        ChunkingIndependent(body + chunk, rest, cap);
      }
    }
  }

  // ---------- HTTP/1 and HTTP/2 ----------

  /** The caching fields of the request context. */
  datatype Ctx = Ctx(key: Option<string>, ttl: Option<nat>, status: u16, headers: seq<Header>, acc: Acc)

  function OnHead(c: Ctx, status: u16, headers: seq<Header>): Ctx {
    if c.key.None? then c
    else
      match CaptureTtl(status, headers)
      case Some(ttl) => c.(ttl := Some(ttl), status := status, headers := Captured(headers))
      case None => c.(key := None)
  }

  /** One call of the body filter: at most one chunk, perhaps the end of the stream. */
  datatype Call = Call(chunk: Option<seq<byte>>, endOfStream: bool, now: Time)

  function OnBody(c: Ctx, call: Call, cap: nat): (Ctx, Option<CachePut>) {
    if c.ttl.None? || c.acc.overflow then (c, None)
    else
      var c1 := if call.chunk.Some? then c.(acc := Accumulate(c.acc, call.chunk.value, cap)) else c;
      if call.endOfStream && !c1.acc.overflow && c1.key.Some? then
        (c1.(key := None, headers := [], acc := Acc([], false)),
         Some(CachePut(c1.key.value, call.now + Seconds(c.ttl.value), Response(c1.status, c1.headers, c1.acc.body))))
      else (c1, None)
  }

  function Puts(c: Ctx, calls: seq<Call>, cap: nat): seq<CachePut>
    decreases calls
  {
    if calls == [] then []
    else
      var (c', put) := OnBody(c, calls[0], cap);
      (if put.Some? then [put.value] else []) + Puts(c', calls[1..], cap)
  }

  function Chunks(calls: seq<Call>): seq<seq<byte>> {
    if calls == [] then []
    else (if calls[0].chunk.Some? then [calls[0].chunk.value] else []) + Chunks(calls[1..])
  }

  lemma {:induction false} NoKeyNoPut(c: Ctx, calls: seq<Call>, cap: nat)
    requires c.key.None? || c.ttl.None? || c.acc.overflow
    ensures Puts(c, calls, cap) == []
    decreases calls
  {
    if calls != [] {
      NoKeyNoPut(OnBody(c, calls[0], cap).0, calls[1..], cap);
    }
  }

  /** Whatever the calls, even after the end of the stream, a request stores at most one response. */
  lemma {:induction false} AtMostOnePut(c: Ctx, calls: seq<Call>, cap: nat)
    ensures |Puts(c, calls, cap)| <= 1
    ensures (forall call | call in calls :: !call.endOfStream) ==> Puts(c, calls, cap) == []
    decreases calls
  {
    if calls != [] {
      var (c', put) := OnBody(c, calls[0], cap);
      AtMostOnePut(c', calls[1..], cap);
      if put.Some? {
        NoKeyNoPut(c', calls[1..], cap);
      }
    }
  }

  /** The buffer never holds more than the cap, through any sequence of calls. */
  lemma {:induction false} BufferBounded(c: Ctx, calls: seq<Call>, cap: nat, n: nat)
    requires |c.acc.body| <= cap && n <= |calls|
    ensures |After(c, calls[..n], cap).acc.body| <= cap
    decreases n
  {
    if n > 0 {
      var c' := OnBody(c, calls[0], cap).0;
      assert calls[..n][1..] == calls[1..][..n - 1];
      BufferBounded(c', calls[1..], cap, n - 1);
    }
  }

  function After(c: Ctx, calls: seq<Call>, cap: nat): Ctx
    decreases calls
  {
    if calls == [] then c else After(OnBody(c, calls[0], cap).0, calls[1..], cap)
  }

  /** Every call but the last leaves the stream open; the last one ends it. */
  predicate CompleteStream(calls: seq<Call>) {
    && calls != []
    && calls[|calls| - 1].endOfStream
    && forall i | 0 <= i < |calls| - 1 :: !calls[i].endOfStream
  }

  /** What the end of the stream stores, given the accumulator at that point. */
  function EndPuts(c: Ctx, end: Acc, now: Time): seq<CachePut>
    requires c.key.Some? && c.ttl.Some?
  {
    if end.overflow then []
    else [CachePut(c.key.value, now + Seconds(c.ttl.value), Response(c.status, c.headers, end.body))]
  }

  lemma {:induction false} StreamPuts(c: Ctx, calls: seq<Call>, cap: nat)
    requires CompleteStream(calls) && c.key.Some? && c.ttl.Some?
    ensures Puts(c, calls, cap) == EndPuts(c, AccumulateAll(c.acc, Chunks(calls), cap), calls[|calls| - 1].now)
    decreases |calls|
  {
    var call, rest := calls[0], calls[1..];
    var (c', put) := OnBody(c, call, cap);
    var chunks := Chunks(rest);
    if call.chunk.Some? {
      assert ([call.chunk.value] + chunks)[1..] == chunks;
    } else {
      assert Chunks(calls) == chunks;
    }
    if c.acc.overflow {
      NoKeyNoPut(c, calls, cap);
      StickyAll(c.acc, Chunks(calls), cap);
    } else if |calls| == 1 {
      assert rest == [];
    } else {
      assert !call.endOfStream;
      assert CompleteStream(rest) by {
        assert forall i | 0 <= i < |rest| - 1 :: rest[i] == calls[i + 1] && !calls[i + 1].endOfStream;
      }
      StreamPuts(c', rest, cap);
    }
  }

  lemma {:induction false} StickyAll(a: Acc, chunks: seq<seq<byte>>, cap: nat)
    requires a.overflow
    ensures AccumulateAll(a, chunks, cap) == a
    decreases chunks
  {
    if chunks != [] {
      StickyAll(a, chunks[1..], cap);
    }
  }

  /**
   After a cacheable response head, a complete body stream stores exactly one response, with
   exactly the upstream body, if that is within the cap, and nothing otherwise - however it was cut.
   */
  lemma StoresExactlyTheBody(c: Ctx, status: u16, headers: seq<Header>, calls: seq<Call>, cap: nat)
    requires c.key.Some? && c.ttl.None? && c.acc == Acc([], false) && CompleteStream(calls)
    ensures var puts := Puts(OnHead(c, status, headers), calls, cap);
            var ttl, body := CaptureTtl(status, headers), Kept(Chunks(calls), cap);
            puts == if ttl.Some? && body.Some? then
                      [CachePut(c.key.value, calls[|calls| - 1].now + Seconds(ttl.value),
                                Response(status, Captured(headers), body.value))]
                    else []
  {
    hide CaptureTtl;
    hide Captured;
    var c' := OnHead(c, status, headers);
    var body := Concat(Chunks(calls));
    if c'.key.Some? {
      StreamPuts(c', calls, cap);
      ChunkingIndependent([], Chunks(calls), cap);
      assert [] + body == body;
    } else {
      NoKeyNoPut(c', calls, cap);
    }
  }

  /** The end-to-end condition, on header text: what a complete stream stores, and when it stores nothing. */
  lemma StoredExactly(c: Ctx, status: u16, headers: seq<Header>, calls: seq<Call>, cap: nat)
    requires c.key.Some? && c.ttl.None? && c.acc == Acc([], false) && CompleteStream(calls)
    ensures var puts, body := Puts(OnHead(c, status, headers), calls, cap), Concat(Chunks(calls));
            && (forall n: nat | MayStore(status, headers, n) && |body| <= cap ::
                  puts == [CachePut(c.key.value, calls[|calls| - 1].now + n * NANOS, Response(200, Captured(headers), body))])
            && ((forall n: nat :: !MayStore(status, headers, n)) || |body| > cap ==> puts == [])
  {
    StoresExactlyTheBody(c, status, headers, calls, cap);
    hide *;
    KeptExactly(Chunks(calls), cap);
    OnlyLifetime(status, headers);
    var ttl := CaptureTtl(status, headers);
    if ttl.Some? {
      SecondsExactly(ttl.value);
      assert MayStore(status, headers, ttl.value);
    }
  }

  lemma OnlyLifetime(status: u16, headers: seq<Header>)
    ensures match CaptureTtl(status, headers)
            case None => forall n: nat :: !MayStore(status, headers, n)
            case Some(ttl) => status == 200 && forall n: nat :: MayStore(status, headers, n) <==> n == ttl
  {
    forall n: nat ensures CaptureTtl(status, headers) == Some(n) <==> MayStore(status, headers, n) {
      CaptureTtlExactly(status, headers, n);
    }
    hide CaptureTtl;
    forall n: nat | MayStore(status, headers, n) ensures status == 200 {
      StoresA200(status, headers, n);
    }
    hide MayStore;
  }

  lemma KeptExactly(chunks: seq<seq<byte>>, cap: nat)
    ensures Kept(chunks, cap) == if |Concat(chunks)| <= cap then Some(Concat(chunks)) else None
  {
  }

  lemma StoresA200(status: u16, headers: seq<Header>, n: nat)
    requires MayStore(status, headers, n)
    ensures status == 200
  {
  }

  lemma SecondsExactly(n: nat)
    ensures Seconds(n) == n * NANOS
  {
  }

  /** A request that was not given a key stores nothing, whatever the response. */
  lemma WithoutKeyNothingIsStored(c: Ctx, status: u16, headers: seq<Header>, calls: seq<Call>, cap: nat)
    requires c.key.None?
    ensures Puts(OnHead(c, status, headers), calls, cap) == []
    ensures StoreFor(None, status, headers) == None
  {
    NoKeyNoPut(c, calls, cap);
  }

  // ---------- HTTP/3 ----------

  /** A frame of the upstream body; trailers carry no data. */
  datatype Frame = Data(bytes: seq<byte>) | Trailers

  function DataOf(frames: seq<Frame>): seq<seq<byte>> {
    if frames == [] then []
    else (if frames[0].Data? then [frames[0].bytes] else []) + DataOf(frames[1..])
  }

  /** What `proxy_request` remembers of a cacheable response head: key, lifetime, status, headers. */
  datatype PendingStore = PendingStore(key: string, ttl: nat, status: u16, headers: seq<Header>)

  function StoreFor(key: Option<string>, status: u16, headers: seq<Header>): Option<PendingStore> {
    if key.None? then None
    else
      match CaptureTtl(status, headers)
      case Some(ttl) => Some(PendingStore(key.value, ttl, status, Captured(headers)))
      case None => None
  }

  /** What a relayed response stores: the whole body of a cacheable, unbroken response within the cap. */
  function RelayPut(store: Option<PendingStore>, frames: seq<Frame>, broken: bool, max: nat, now: Time): Option<CachePut> {
    var body := Kept(DataOf(frames), max);
    if broken || store.None? || body.None? then None
    else Some(CachePut(store.value.key, now + Seconds(store.value.ttl),
                       Response(store.value.status, store.value.headers, body.value)))
  }

  method AccumulateCacheBody(active: bool, buf: seq<byte>, overflow: bool, data: seq<byte>, max: nat)
    returns (buf': seq<byte>, overflow': bool)
    ensures Acc(buf', overflow') == if active then Accumulate(Acc(buf, overflow), data, max) else Acc(buf, overflow)
  {
    buf', overflow' := buf, overflow;
    if active && !overflow {
      if |buf| + |data| > max {
        overflow' := true;
        buf' := [];
      } else {
        buf' := buf + data;
      }
    }
  }

  /**
   The relay loop and the store after it. `broken` says that the upstream failed after the given
   frames, in which case the request ends before anything is stored.
   */
  method RelayAndStore(store: Option<PendingStore>, frames: seq<Frame>, broken: bool, max: nat, now: Time)
    returns (put: Option<CachePut>)
    ensures put.Some? <==> !broken && store.Some? && |Concat(DataOf(frames))| <= max
    ensures put.Some? ==>
              put.value == CachePut(store.value.key, now + store.value.ttl * NANOS,
                                    Response(store.value.status, store.value.headers, Concat(DataOf(frames))))
    ensures put == RelayPut(store, frames, broken, max, now)
  {
    var active := store.Some?;
    var buf, overflow := [], false;
    for i := 0 to |frames|
      invariant active ==>
        AccumulateAll(Acc(buf, overflow), DataOf(frames[i..]), max) == AccumulateAll(Acc([], false), DataOf(frames), max)
    {
      assert frames[i..][1..] == frames[i + 1..];
      assert frames[i].Trailers? ==> DataOf(frames[i..]) == DataOf(frames[i + 1..]);
      if frames[i].Data? {
        assert ([frames[i].bytes] + DataOf(frames[i + 1..]))[1..] == DataOf(frames[i + 1..]);
        buf, overflow := AccumulateCacheBody(active, buf, overflow, frames[i].bytes, max);
      }
    }
    if broken {
      return None;
    }
    if active && !overflow {
      put := Some(CachePut(store.value.key, now + Seconds(store.value.ttl),
                           Response(store.value.status, store.value.headers, buf)));
    } else {
      put := None;
    }
    ghost var body := Concat(DataOf(frames));
    ChunkingIndependent([], DataOf(frames), max);
    assert [] + body == body;
  }

  /** When the upstream breaks off, nothing is stored of what had arrived, on either listener. */
  lemma BrokenStoresNothing(c: Ctx, status: u16, headers: seq<Header>, calls: seq<Call>, store: Option<PendingStore>,
                            frames: seq<Frame>, cap: nat, now: Time)
    requires forall call | call in calls :: !call.endOfStream
    ensures Puts(OnHead(c, status, headers), calls, cap) == []
    ensures RelayPut(store, frames, true, cap, now) == None
  {
    AtMostOnePut(OnHead(c, status, headers), calls, cap);
  }

  /** Both listeners store the same response for the same head, body and clock, however each cuts the body. */
  lemma ListenersAgree(key: string, status: u16, headers: seq<Header>, calls: seq<Call>, frames: seq<Frame>, cap: nat)
    requires CompleteStream(calls) && Concat(Chunks(calls)) == Concat(DataOf(frames))
    ensures var put := RelayPut(StoreFor(Some(key), status, headers), frames, false, cap, calls[|calls| - 1].now);
            Puts(OnHead(Ctx(Some(key), None, 0, [], Acc([], false)), status, headers), calls, cap)
              == if put.Some? then [put.value] else []
  {
    hide CaptureTtl;
    hide Captured;
    hide CompleteStream;
    StoresExactlyTheBody(Ctx(Some(key), None, 0, [], Acc([], false)), status, headers, calls, cap);
  }

  // ---------- The request context object ----------

  class RequestCtx {
    var bodySeen: nat
    var cacheKey: Option<string>
    var cacheTtl: Option<nat>
    var cacheStatus: u16
    var cacheHeaders: seq<Header>
    var cacheBody: seq<byte>
    var cacheOverflow: bool

    ghost function Contents(): Ctx
      reads this
    {
      Ctx(cacheKey, cacheTtl, cacheStatus, cacheHeaders, Acc(cacheBody, cacheOverflow))
    }

    constructor ()
      ensures Contents() == Ctx(None, None, 0, [], Acc([], false)) && bodySeen == 0
    {
      bodySeen := 0;
      cacheKey, cacheTtl := None, None;
      cacheStatus, cacheHeaders := 0, [];
      cacheBody, cacheOverflow := [], false;
    }

    method UpstreamResponseFilter(status: u16, headers: seq<Header>)
      modifies this
      ensures Contents() == OnHead(old(Contents()), status, headers) && bodySeen == old(bodySeen)
      ensures old(cacheKey).Some? ==>
                if cacheKey.Some? then cacheTtl.Some? && MayStore(status, headers, cacheTtl.value)
                else forall n: nat :: !MayStore(status, headers, n)
    {
      if cacheKey.Some? {
        var ttl := CaptureTtl(status, headers);
        forall n: nat ensures ttl == Some(n) <==> MayStore(status, headers, n) {
          CaptureTtlExactly(status, headers, n);
        }
        hide MayStore;
        match ttl {
          case Some(_) =>
            cacheTtl := ttl;
            cacheStatus := status;
            cacheHeaders := Captured(headers);
          case None =>
            cacheKey := None;
        }
      }
    }

    /** Returns the put this call makes, if any. */
    method UpstreamResponseBodyFilter(body: Option<seq<byte>>, endOfStream: bool, cacheMaxBody: nat, now: Time)
      returns (put: Option<CachePut>)
      modifies this
      ensures (Contents(), put) == OnBody(old(Contents()), Call(body, endOfStream, now), cacheMaxBody)
      ensures bodySeen == old(bodySeen)
    {
      put := None;
      if cacheTtl.Some? && !cacheOverflow {
        if body.Some? {
          if |cacheBody| + |body.value| > cacheMaxBody {
            cacheOverflow := true;
            cacheBody := [];
          } else {
            cacheBody := cacheBody + body.value;
          }
        }
        if endOfStream && !cacheOverflow && cacheKey.Some? {
          put := Some(CachePut(cacheKey.value, now + Seconds(cacheTtl.value),
                               Response(cacheStatus, cacheHeaders, cacheBody)));
          cacheKey, cacheHeaders, cacheBody := None, [], [];
        }
      }
    }

    /** False when the request must be aborted: more bytes have arrived than the limit allows. */
    method RequestBodyFilter(body: Option<seq<byte>>, maxBodyBytes: Option<nat>) returns (ok: bool)
      modifies this
      ensures Contents() == old(Contents())
      ensures bodySeen == old(bodySeen) + (if maxBodyBytes.Some? && body.Some? then |body.value| else 0)
      ensures ok <==> maxBodyBytes.Some? && body.Some? ==> bodySeen <= maxBodyBytes.value
    {
      if maxBodyBytes.Some? && body.Some? {
        bodySeen := bodySeen + |body.value|;
        if bodySeen > maxBodyBytes.value {
          return false;
        }
      }
      return true;
    }
  }

  // ---------- Request bodies ----------

  /** The upload loop of the HTTP/3 listener: forward chunks until the total would exceed the limit. */
  method ForwardUpload(chunks: seq<seq<byte>>, max: nat) returns (sent: seq<seq<byte>>)
    ensures sent <= chunks && |Concat(sent)| <= max
    ensures |Concat(chunks)| <= max <==> sent == chunks
    ensures sent != chunks ==> |Concat(chunks[..|sent| + 1])| > max
  {
    sent := [];
    var seen := 0;
    for i := 0 to |chunks|
      invariant sent == chunks[..i] && seen == |Concat(sent)| <= max
    {
      seen := seen + |chunks[i]|;
      ConcatSnoc(chunks[..i], chunks[i]);
      assert chunks[..i + 1] == chunks[..i] + [chunks[i]];
      if seen > max {
        ConcatPrefix(chunks, i + 1);
        return;
      }
      sent := sent + [chunks[i]];
    }
    assert chunks[..|chunks|] == chunks;
  }

  lemma {:induction false} ConcatPrefix(chunks: seq<seq<byte>>, n: nat)
    requires n <= |chunks|
    ensures |Concat(chunks[..n])| <= |Concat(chunks)|
  {
    if n > 0 {
      assert chunks[..n][1..] == chunks[1..][..n - 1];
      ConcatPrefix(chunks[1..], n - 1);
    }
  }
}
