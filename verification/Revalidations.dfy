/**
 Two things a revalidation may put into the cache that a plain miss may not: a response that sets a
 cookie, and one kept for the default lifetime because its own headers give none back.
 */
module Revalidations {
  import opened Base
  import opened Codec
  import opened Policy
  import opened CacheStore
  import opened ProxyMachine
  import opened Reaching

  function WithCookie(cookie: string, headers: seq<Header>): seq<Header> {
    [Header("set-cookie", cookie)] + headers
  }

  lemma CookieIsCaptured(cookie: string, headers: seq<Header>, body: seq<byte>)
    requires Visible(cookie)
    requires CaptureTtl(200, headers).Some? && VaryCacheable(FirstVisible(headers, "vary"))
    ensures SetsCookie(Latest(WithCookie(cookie, headers), body))
    ensures StoredTtl(Latest(WithCookie(cookie, headers), body)) == CaptureTtl(200, headers)
  {
    var raw := WithCookie(cookie, headers);
    KeptNames();
    assert raw[1..] == headers;
    assert Captured(raw) == [Header("set-cookie", cookie)] + Captured(headers);
    SameNames();
    hide Captured;
    hide Visible;
    hide StoredTtl;
    hide CaptureTtl;
    hide VaryCacheable;
    hide FirstVisible;
    StoredTtlAgrees(200, headers, body);
    StoredTtlIgnoresCookies(Response(200, Captured(headers), body), cookie);
  }

  /** The put of a changed response, revalidated by the other two listeners at `clock`. */
  function Replacement(key: string, ttl: nat, clock: Time, cookie: string, headers: seq<Header>, body: seq<byte>): PutRecord {
    PutRecord(key, clock, ttl, Stored(clock + Seconds(ttl), Latest(WithCookie(cookie, headers), body)))
  }

  /**
   For every response a miss would store, with a validator, and every cookie: once it is stale, the
   origin may send it again with the cookie, and then the next request is served from the cache what
   sets another client's cookie.
   */
  lemma CookieIsServed(cfg: Config, key: string, ttl: nat, headers: seq<Header>, cookie: string,
                       body: seq<byte>, changed: seq<byte>, clock: Time)
    requires cfg.maxEntries >= 1 && CaptureTtl(200, headers) == Some(ttl)
    requires VaryCacheable(FirstVisible(headers, "vary")) && FirstVisible(headers, "etag").Some? && Visible(cookie)
    requires ttl > 0 && clock >= Seconds(ttl)
    requires Writable(EarlyPut(key, ttl, headers, body)) && Writable(Replacement(key, ttl, clock, cookie, headers, changed))
    ensures exists s: Proxy, x :: Reachable(cfg, s) && x in s.served && x.ServedFresh? && x.key == key
              && SetsCookie(x.response) && x.response.body == changed
  {
    hide Reachable;
    hide CaptureTtl;
    hide Captured;
    hide Fits;
    hide Visible;
    hide VaryCacheable;
    hide FirstVisible;
    hide FirstValue;
    hide StoredTtl;
    hide WithCookie;
    var s := ReachRevalidating(cfg, key, ttl, headers, body, clock);
    var ph, p := PhaseOf(s, 1), Replacement(key, ttl, clock, cookie, headers, changed);
    var raw, latest := WithCookie(cookie, headers), p.v.response;
    CookieIsCaptured(cookie, headers, changed);
    assert ReplaceRecord(ph, clock, latest) == p;
    var reply := Some(ServedModified(key, latest));
    StepReachable(cfg, s, 1, Modified(clock, raw, changed));
    s := StartPut(s, 1, p, reply);
    hide SetsCookie;
    SkipDisk(cfg, s, 1, p, reply);
    s := Goto(s, 1, PutInserting(p, reply));
    InsertReachable(cfg, s, 1, p, reply);
    s := Reply(Goto(s, 1, Idle).(memory := map[key := p.v]), reply);
    ServeFresh(cfg, s, 2, key, clock);
    s := Reply(Goto(s, 2, Idle), Some(ServedFresh(key, clock, latest)));
    assert ServedFresh(key, clock, latest) in s.served;
  }

  /**
   For every lifetime and validator some response is stored on a miss and, when the origin calls it
   unchanged, stored again for 60 seconds, although its own headers say `max-age=n` and rule caching out.
   */
  lemma DefaultIsTaken(cfg: Config, key: string, n: nat, etag: string, body: seq<byte>, clock: Time)
    requires cfg.maxEntries >= 1 && 0 < n < 0x1_0000_0000_0000_0000 && Visible(etag) && clock >= Seconds(n)
    requires Writable(EarlyPut(key, n, HiddenVaryHeaders(n, etag), body))
    requires Fits(EntryOf(key, Stored(clock + Seconds(DEFAULT_TTL), Latest(HiddenVaryHeaders(n, etag), body))))
    ensures exists s: Proxy, p :: Reachable(cfg, s) && p in s.puts && p.key == key && p.ttl == DEFAULT_TTL
              && DeclaredMaxAge(p.v.response) == Some(n) && StoredTtl(p.v.response) == None
  {
    hide Reachable;
    hide CaptureTtl;
    hide Captured;
    hide Fits;
    hide Visible;
    hide VaryCacheable;
    hide FirstVisible;
    hide FirstValue;
    hide StoredTtl;
    hide DeclaredMaxAge;
    hide HiddenVaryHeaders;
    var headers := HiddenVaryHeaders(n, etag);
    HiddenVary(n, etag, body);
    CapturedDeclaresTtl(200, headers, body);
    KeptNames();
    FirstValueOfCaptured(headers, "etag");
    var s := ReachRevalidating(cfg, key, n, headers, body, clock);
    var p := RefreshRecord(PhaseOf(s, 1), clock);
    StepReachable(cfg, s, 1, NotModified(clock));
    s := StartPut(s, 1, p, Some(ServedValidated(key, PhaseOf(s, 1).hit)));
    assert p in s.puts;
  }
}
