/**
 The caching stage of one request, as both listeners run it on the cache object: look up, serve,
 revalidate, or remember the key for the response on its way back. `Undisturbed` shows that this is what
 the steps of `ProxyMachine` come to when no other request runs between them.
 */
module RequestFlow {
  import opened Base
  import opened Codec
  import opened Policy
  import opened CacheStore
  import opened ProxyMachine
  import opened HeaderText
  import CacheKey
  import Objects = ResponseCache

  datatype Request = Request(
    method_: string, host: string, pathAndQuery: string,
    cacheControl: Option<string>, hasAuthorization: bool, acceptEncoding: Option<string>)

  /** How the origin would answer a conditional request; only a 200 counts as a change. */
  datatype Origin = Unchanged | Changed(headers: seq<Header>, body: seq<byte>) | Unreachable

  /**
   What the stage did: a response served, a put made, or a key to store the fetched response under. A
   request that panics has none of them.
   */
  datatype Outcome = Outcome(served: Option<Served>, put: Option<PutRecord>, cacheKey: Option<string>)

  const FETCH_WITHOUT_CACHE := Outcome(None, None, None)

  /** What the answer to a conditional request leads to. */
  function Revalidated(l: Listener, key: string, now: Time, hit: Response, origin: Origin, clock: Time): Outcome {
    var ph := Revalidating(l, key, now, hit);
    match origin
    case Unchanged => Outcome(Some(ServedValidated(key, hit)), Some(RefreshRecord(ph, clock)), None)
    case Changed(headers, body) =>
      var latest := Latest(headers, body);
      Outcome(Some(ServedModified(key, latest)),
              if StoredTtl(latest).Some? then Some(ReplaceRecord(ph, clock, latest)) else None, None)
    case Unreachable => Outcome(None, None, Some(key))
  }

  function Decide(l: Listener, key: string, now: Time, found: Lookup, hasTarget: bool, origin: Origin, clock: Time): Outcome {
    match found
    case Fresh(hit) => Outcome(Some(ServedFresh(key, now, hit)), None, None)
    case Miss => Outcome(None, None, Some(key))
    case Panicked => Outcome(None, None, None)
    case Stale(hit) =>
      if Etag(hit).None? || !hasTarget then Outcome(None, None, Some(key))
      else Revalidated(l, key, now, hit, origin, clock)
  }

  /** How long a confirmed response is kept: as its own headers say, or a minute if they do not let it be kept. */
  ghost predicate RefreshedFor(r: Response, n: nat) {
    GivesBack(r.headers, n) || (n == 60 && forall m: nat :: !GivesBack(r.headers, m))
  }

  /** A put of the response, to expire `n` seconds after the start, for an `n` that its headers give. */
  ghost predicate PutsFor(put: Option<PutRecord>, key: string, start: Time, r: Response, n: nat) {
    put.Some? && put.value.key == key && put.value.v == Stored(start + n * NANOS, r)
  }

  /**
   What the stage must do, with every time written out. An expired response is served only when the origin
   has confirmed or replaced it; lifetimes count from the clock after its answer or, on HTTP/3, from the
   arrival of the request; an origin that cannot be reached leaves the cache alone and the request to be
   fetched.
   */
  ghost predicate AsPromised(l: Listener, key: string, now: Time, found: Lookup, hasTarget: bool, origin: Origin, clock: Time,
                             o: Outcome)
  {
    var start := if l == Http3 then now else clock;
    match found
    case Fresh(r) => o == Outcome(Some(ServedFresh(key, now, r)), None, None)
    case Miss => o == Outcome(None, None, Some(key))
    case Panicked => o == Outcome(None, None, None)
    case Stale(r) =>
      if Without(r.headers, "etag") || !hasTarget || origin.Unreachable? then o == Outcome(None, None, Some(key))
      else if origin.Unchanged? then
        && o.served == Some(ServedValidated(key, r)) && o.cacheKey == None
        && exists n: nat :: RefreshedFor(r, n) && PutsFor(o.put, key, start, r, n)
      else
        var latest := Response(200, Captured(origin.headers), origin.body);
        && o.served == Some(ServedModified(key, latest)) && o.cacheKey == None
        && if exists n: nat :: GivesBack(latest.headers, n)
           then exists n: nat :: GivesBack(latest.headers, n) && PutsFor(o.put, key, start, latest, n)
           else o.put == None
  }

  lemma RevalidatedAsPromised(l: Listener, key: string, now: Time, hit: Response, origin: Origin, clock: Time)
    requires !Without(hit.headers, "etag")
    ensures AsPromised(l, key, now, Stale(hit), true, origin, clock, Revalidated(l, key, now, hit, origin, clock))
  {
    hide GivesBack;
    hide Without;
    hide StoredTtl;
    var o := Revalidated(l, key, now, hit, origin, clock);
    match origin {
      case Unchanged =>
        var stored := StoredTtl(hit);
        StoredTtlNever(hit);
        if stored.Some? {
          StoredTtlExactly(hit, stored.value);
        }
        var n := if stored.Some? then stored.value else 60;
        assert RefreshedFor(hit, n);
        assert PutsFor(o.put, key, if l == Http3 then now else clock, hit, n);
      case Changed(headers, body) =>
        var latest := Response(200, Captured(headers), body);
        var ttl := StoredTtl(latest);
        StoredTtlNever(latest);
        if ttl.Some? {
          StoredTtlExactly(latest, ttl.value);
          assert PutsFor(o.put, key, if l == Http3 then now else clock, latest, ttl.value);
        }
      case Unreachable =>
    }
  }

  lemma DecidesAsPromised(l: Listener, key: string, now: Time, found: Lookup, hasTarget: bool, origin: Origin, clock: Time)
    ensures AsPromised(l, key, now, found, hasTarget, origin, clock, Decide(l, key, now, found, hasTarget, origin, clock))
  {
    if found.Stale? {
      EtagExactly(found.response);
      hide Etag;
      hide Without;
      hide Revalidated;
      if Etag(found.response).Some? && hasTarget {
        RevalidatedAsPromised(l, key, now, found.response, origin, clock);
      }
    }
    hide AsPromised;
  }

  predicate Cacheable(r: Request) {
    RequestCacheable(r.method_, r.cacheControl, r.hasAuthorization)
  }

  /** A `GET` without credentials whose `Cache-Control`, if any, lists neither `no-store` nor `no-cache`. */
  ghost predicate MayUseCache(r: Request) {
    r.method_ == "GET" && !r.hasAuthorization && !Lists(r.cacheControl, "no-store") && !Lists(r.cacheControl, "no-cache")
  }

  /** The stage is one lookup, a decision on its result alone, and at most one put of what was decided. */
  ghost predicate Staged(cfg: Config, s: State, s': State, l: Listener, key: string, now: Time,
                         hasTarget: bool, origin: Origin, clock: Time, found: Lookup, mid: State, o: Outcome) {
    && Step(cfg, s, Look(key, now, found), mid)
    && o == Decide(l, key, now, found, hasTarget, origin, clock)
    && if o.put.Some? then Step(cfg, mid, Put(key, o.put.value.v), s') else s' == mid
  }

  method CacheStage(cache: Objects.ResponseCache, l: Listener, r: Request, now: Time,
                    hasTarget: bool, origin: Origin, clock: Time, fileClock: Time)
    returns (o: Outcome, ghost found: Lookup, ghost mid: State)
    requires cache.Valid()
    modifies cache.Repr()
    ensures cache.Valid()
    ensures !MayUseCache(r) ==> o == FETCH_WITHOUT_CACHE && cache.Now() == old(cache.Now())
    ensures MayUseCache(r) ==>
              var key := CacheKey.Key(r.host, r.pathAndQuery, r.acceptEncoding);
              && Staged(cache.Cfg(), old(cache.Now()), cache.Now(), l, key, now, hasTarget, origin, clock, found, mid, o)
              && AsPromised(l, key, now, found, hasTarget, origin, clock, o)
  {
    RequestCacheableExactly(r.method_, r.cacheControl, r.hasAuthorization);
    forall key, found: Lookup
      ensures AsPromised(l, key, now, found, hasTarget, origin, clock, Decide(l, key, now, found, hasTarget, origin, clock))
    {
      DecidesAsPromised(l, key, now, found, hasTarget, origin, clock);
    }
    hide AsPromised;
    hide Lists;
    hide Step;
    hide Revalidated;
    hide Etag;
    hide RequestCacheable;
    hide CacheKey.Key;
    found, mid := Lookup.Miss, cache.Now();
    if !Cacheable(r) {
      return FETCH_WITHOUT_CACHE, found, mid;
    }
    var key := CacheKey.Key(r.host, r.pathAndQuery, r.acceptEncoding);
    var lookup := cache.Lookup(key, now);
    found, mid := lookup, cache.Now();
    match lookup {
      case Fresh(hit) =>
        return Outcome(Some(ServedFresh(key, now, hit)), None, None), found, mid;
      case Miss =>
        return Outcome(None, None, Some(key)), found, mid;
      case Panicked =>
        return Outcome(None, None, None), found, mid;
      case Stale(hit) =>
        var etag := Etag(hit);
        if etag.None? || !hasTarget {
          return Outcome(None, None, Some(key)), found, mid;
        }
        o := Revalidate(cache, l, key, now, hit, origin, clock, fileClock);
        return o, found, mid;
    }
  }

  method Revalidate(cache: Objects.ResponseCache, l: Listener, key: string, now: Time, hit: Response,
                    origin: Origin, clock: Time, fileClock: Time) returns (o: Outcome)
    requires cache.Valid()
    modifies cache.Repr()
    ensures cache.Valid()
    ensures o == Revalidated(l, key, now, hit, origin, clock)
    ensures !Without(hit.headers, "etag") ==> AsPromised(l, key, now, Stale(hit), true, origin, clock, o)
    ensures if o.put.Some? then Step(cache.Cfg(), old(cache.Now()), Put(key, o.put.value.v), cache.Now())
            else cache.Now() == old(cache.Now())
  {
    hide Step;
    hide StoredTtl;
    hide AsPromised;
    hide Without;
    if !Without(hit.headers, "etag") {
      RevalidatedAsPromised(l, key, now, hit, origin, clock);
    }
    var start := if l == Http3 then now else clock;
    match origin {
      case Unchanged =>
        var stored := StoredTtl(hit);
        var ttl := if stored.Some? then stored.value else DEFAULT_TTL;
        var p := PutRecord(key, start, ttl, Stored(start + Seconds(ttl), hit));
        cache.Put(key, p.v, fileClock);
        return Outcome(Some(ServedValidated(key, hit)), Some(p), None);
      case Changed(headers, body) =>
        var latest := Latest(headers, body);
        var ttl := StoredTtl(latest);
        if ttl.None? {
          return Outcome(Some(ServedModified(key, latest)), None, None);
        }
        var p := PutRecord(key, start, ttl.value, Stored(start + Seconds(ttl.value), latest));
        cache.Put(key, p.v, fileClock);
        return Outcome(Some(ServedModified(key, latest)), Some(p), None);
      case Unreachable =>
        return Outcome(None, None, Some(key));
    }
  }
}
