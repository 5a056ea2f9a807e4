/** Which requests and responses may be cached, for how long, and what is stored of a response. */
module Policy {
  import opened Base
  import opened Text
  import opened Codec

  // ---------- Cache-Control and Vary ----------

  function DirectiveName(part: string): string {
    Trim(Split(Trim(part), '=')[0])
  }

  predicate HasDirective(cacheControl: Option<string>, directive: string) {
    && cacheControl.Some?
    && exists p | p in Split(cacheControl.value, ',') :: DirectiveName(p) == directive
  }

  predicate IsDigit(c: char) {
    '0' <= c <= '9'
  }

  /** The value of a run of decimal digits; nothing if some character is not a digit. */
  function DigitsValue(s: string, acc: nat): Option<nat> {
    if s == "" then Some(acc)
    else if IsDigit(s[0]) then DigitsValue(s[1..], 10 * acc + (s[0] as int - '0' as int))
    else None
  }

  /** `s.parse::<u64>()`: one leading `+` is allowed, no digits or a value over 64 bits is an error. */
  function ParseU64(s: string): Option<nat> {
    var digits := if s != "" && s[0] == '+' then s[1..] else s;
    match DigitsValue(digits, 0)
    case None => None
    case Some(n) => if digits == "" || n >= 0x1_0000_0000_0000_0000 then None else Some(n)
  }

  const MAX_AGE := "max-age="

  function PartMaxAge(part: string): Option<nat> {
    var part := Trim(part);
    if MAX_AGE <= part then ParseU64(Trim(part[|MAX_AGE|..])) else None
  }

  /** The first part that is a readable `max-age`; unreadable ones are passed over. */
  function FirstMaxAge(parts: seq<string>): Option<nat> {
    if parts == [] then None
    else if PartMaxAge(parts[0]).Some? then PartMaxAge(parts[0])
    else FirstMaxAge(parts[1..])
  }

  function MaxAge(cacheControl: string): Option<nat> {
    FirstMaxAge(Split(cacheControl, ','))
  }

  predicate VaryCacheable(vary: Option<string>) {
    vary.Some? ==>
      var value := Trim(vary.value);
      value != "*" && forall token | token in Split(value, ',') :: EqIgnoreAsciiCase(Trim(token), "accept-encoding")
  }

  predicate RequestCacheable(method_: string, cacheControl: Option<string>, hasAuthorization: bool) {
    && method_ == "GET"
    && !hasAuthorization
    && !HasDirective(cacheControl, "no-store")
    && !HasDirective(cacheControl, "no-cache")
  }

  /** The lifetime in seconds, if the response may be cached at all. */
  function ResponseTtl(status: u16, cacheControl: Option<string>, hasSetCookie: bool, vary: Option<string>): Option<nat> {
    if status != 200 || hasSetCookie || !VaryCacheable(vary) then None
    else if HasDirective(cacheControl, "no-store")
            || HasDirective(cacheControl, "no-cache")
            || HasDirective(cacheControl, "private") then None
    else if cacheControl.None? then None
    else
      match MaxAge(cacheControl.value)
      case Some(seconds) => if seconds > 0 then Some(seconds) else None
      case None => None
  }

  // ---------- Headers ----------

  /** The value of the first header of that name. */
  function FirstValue(headers: seq<Header>, name: string): Option<string> {
    if headers == [] then None
    else if EqIgnoreAsciiCase(headers[0].name, name) then Some(headers[0].value)
    else FirstValue(headers[1..], name)
  }

  function Etag(r: Response): Option<string> {
    FirstValue(r.headers, "etag")
  }

  /** What a header value on the wire may hold (section 5.5 of RFC 9110): no other byte gets past the parser. */
  predicate Receivable(value: string) {
    forall c | c in value :: c == '\t' || ' ' <= c < '\U{7F}' || '\U{80}' <= c <= '\U{FF}'
  }

  /** `HeaderValue::to_str` refuses the bytes from 0x80 up, and so accepts exactly tabs and printable ASCII. */
  predicate Visible(value: string) {
    forall c | c in value :: ' ' <= c < '\U{7F}' || c == '\t'
  }

  function ToStr(value: Option<string>): Option<string> {
    if value.Some? && Visible(value.value) then value else None
  }

  predicate IsUncacheableHeader(name: string) {
    Lower(name) in {"connection", "keep-alive", "proxy-connection", "transfer-encoding", "upgrade", "content-length"}
  }

  predicate KeptHeader(h: Header) {
    !IsUncacheableHeader(h.name) && Visible(h.value)
  }

  /** The headers of an upstream response that are stored with it. */
  function Captured(headers: seq<Header>): seq<Header> {
    if headers == [] then []
    else (if KeptHeader(headers[0]) then [headers[0]] else []) + Captured(headers[1..])
  }

  /** The lifetime decided when an upstream response head arrives. */
  function CaptureTtl(status: u16, headers: seq<Header>): Option<nat> {
    ResponseTtl(status, ToStr(FirstValue(headers, "cache-control")),
                FirstValue(headers, "set-cookie").Some?, ToStr(FirstValue(headers, "vary")))
  }

  /** The lifetime read back from a stored response when it is revalidated. */
  function StoredTtl(r: Response): Option<nat> {
    ResponseTtl(200, FirstValue(r.headers, "cache-control"), false, FirstValue(r.headers, "vary"))
  }

  /** The first header of that name that survives capture. */
  function FirstVisible(headers: seq<Header>, name: string): Option<string> {
    if headers == [] then None
    else if EqIgnoreAsciiCase(headers[0].name, name) && Visible(headers[0].value) then Some(headers[0].value)
    else FirstVisible(headers[1..], name)
  }

  lemma {:induction false} FirstValueOfCaptured(headers: seq<Header>, name: string)
    requires !IsUncacheableHeader(name)
    ensures FirstValue(Captured(headers), name) == FirstVisible(headers, name)
  {
    if headers != [] {
      FirstValueOfCaptured(headers[1..], name);
      var h, rest := headers[0], Captured(headers[1..]);
      if KeptHeader(h) {
        assert ([h] + rest)[1..] == rest;
      } else {
        assert [] + rest == rest;
      }
    }
  }

  lemma {:induction false} FirstVisibleOfFirst(headers: seq<Header>, name: string)
    ensures ToStr(FirstValue(headers, name)).Some? ==> FirstVisible(headers, name) == FirstValue(headers, name)
    ensures FirstValue(headers, name).None? ==> FirstVisible(headers, name).None?
  {
    if headers != [] {
      FirstVisibleOfFirst(headers[1..], name);
    }
  }

  lemma KeptNames()
    ensures !IsUncacheableHeader("cache-control") && !IsUncacheableHeader("vary") && !IsUncacheableHeader("etag")
    ensures !IsUncacheableHeader("set-cookie")
  {
    assert Lower("cache-control") == "cache-control" && Lower("vary") == "vary";
    assert Lower("etag") == "etag" && Lower("set-cookie") == "set-cookie";
  }

  /**
   A response stored for some lifetime reads back that same lifetime exactly when its first
   printable `Vary` value is cacheable. It can fail only when an unprintable `Vary` value hid a
   later printable one from the decision to store.
   */
  lemma StoredTtlAgrees(status: u16, headers: seq<Header>, body: seq<byte>)
    requires CaptureTtl(status, headers).Some?
    ensures StoredTtl(Response(status, Captured(headers), body)) == CaptureTtl(status, headers)
       <==> VaryCacheable(FirstVisible(headers, "vary"))
    ensures status == 200
  {
    hide HasDirective;
    hide MaxAge;
    hide VaryCacheable;
    hide FirstVisible;
    hide FirstValue;
    hide Captured;
    KeptNames();
    FirstValueOfCaptured(headers, "cache-control");
    FirstValueOfCaptured(headers, "vary");
    FirstVisibleOfFirst(headers, "cache-control");
  }

  /** A lifetime is always the positive `max-age` of the very headers it was read from. */
  lemma StoredTtlIsMaxAge(r: Response)
    requires StoredTtl(r).Some?
    ensures FirstValue(r.headers, "cache-control").Some?
    ensures MaxAge(FirstValue(r.headers, "cache-control").value) == StoredTtl(r)
    ensures StoredTtl(r).value > 0
  {
  }

  /** The freshness lifetime a stored response declares about itself. */
  function DeclaredMaxAge(r: Response): Option<nat> {
    var cacheControl := FirstValue(r.headers, "cache-control");
    if cacheControl.Some? then MaxAge(cacheControl.value) else None
  }

  predicate SetsCookie(r: Response) {
    FirstValue(r.headers, "set-cookie").Some?
  }

  /** What is captured declares the lifetime it is stored for, whatever its `Vary` headers say. */
  lemma CapturedDeclaresTtl(status: u16, headers: seq<Header>, body: seq<byte>)
    requires CaptureTtl(status, headers).Some?
    ensures DeclaredMaxAge(Response(200, Captured(headers), body)) == CaptureTtl(status, headers)
  {
    hide HasDirective;
    hide MaxAge;
    hide VaryCacheable;
    hide FirstVisible;
    hide FirstValue;
    hide Captured;
    KeptNames();
    FirstValueOfCaptured(headers, "cache-control");
    FirstVisibleOfFirst(headers, "cache-control");
  }

  lemma {:induction false} CapturedWithout(headers: seq<Header>, name: string)
    requires FirstValue(headers, name).None?
    ensures FirstValue(Captured(headers), name).None?
  {
    if headers != [] {
      CapturedWithout(headers[1..], name);
      var h, rest := headers[0], Captured(headers[1..]);
      if KeptHeader(h) {
        assert ([h] + rest)[1..] == rest;
      } else {
        assert [] + rest == rest;
      }
    }
  }

  /** A plain miss never stores a response that sets cookies. */
  lemma CapturedSetsNoCookie(status: u16, headers: seq<Header>)
    requires CaptureTtl(status, headers).Some?
    ensures FirstValue(Captured(headers), "set-cookie").None?
  {
    CapturedWithout(headers, "set-cookie");
  }

  /** Revalidation passes no cookie flag: a `Set-Cookie` header never stops a new response being stored there. */
  lemma StoredTtlIgnoresCookies(r: Response, cookie: string)
    ensures StoredTtl(r.(headers := [Header("set-cookie", cookie)] + r.headers)) == StoredTtl(r)
  {
    var headers := [Header("set-cookie", cookie)] + r.headers;
    assert headers[1..] == r.headers;
    assert |Lower("set-cookie")| == 10 && |Lower("cache-control")| == 13 && |Lower("vary")| == 4;
  }

  // ---------- Reading numbers ----------

  /** A number as an origin prints it. */
  function Decimal(n: nat): (s: string)
    ensures s != "" && forall c | c in s :: IsDigit(c)
  {
    (if n < 10 then "" else Decimal(n / 10)) + [(n % 10 + '0' as int) as char]
  }

  lemma {:induction false} DigitsValueSnoc(s: string, d: char, acc: nat)
    requires IsDigit(d) && DigitsValue(s, acc).Some?
    ensures DigitsValue(s + [d], acc) == Some(10 * DigitsValue(s, acc).value + (d as int - '0' as int))
  {
    if s == "" {
      assert ([d])[1..] == "";
    } else {
      assert (s + [d])[1..] == s[1..] + [d];
      DigitsValueSnoc(s[1..], d, 10 * acc + (s[0] as int - '0' as int));
    }
  }

  lemma {:induction false} DigitsValueOfDecimal(n: nat)
    ensures DigitsValue(Decimal(n), 0) == Some(n)
  {
    if n >= 10 {
      DigitsValueOfDecimal(n / 10);
      DigitsValueSnoc(Decimal(n / 10), (n % 10 + '0' as int) as char, 0);
    } else {
      DigitsValueSnoc("", (n % 10 + '0' as int) as char, 0);
    }
  }

  lemma DecimalEnds(d: string)
    requires d != "" && forall c | c in d :: IsDigit(c)
    ensures IsDigit(d[0]) && IsDigit(d[|d| - 1]) && '=' !in d
    ensures Trim(d) == d && Trim(MAX_AGE + d) == MAX_AGE + d && Split(MAX_AGE + d, ',') == [MAX_AGE + d]
  {
    var s := MAX_AGE + d;
    hide Trim;
    hide Split;
    assert d[0] in d && d[|d| - 1] in d;
    assert ',' !in s && '=' !in d && s[0] == 'm' && s[|s| - 1] == d[|d| - 1];
    assert !IsSpace('m') && !IsSpace(d[0]) && !IsSpace(d[|d| - 1]);
    hide IsSpace;
    hide IsDigit;
    SplitWithout(s, ',');
    TrimOfTrimmed(s);
    TrimOfTrimmed(d);
  }

  /** A plain `max-age=N` is read as N seconds, for every positive N of 64 bits. */
  lemma MaxAgeOfDecimal(n: nat)
    requires 0 < n < 0x1_0000_0000_0000_0000
    ensures ResponseTtl(200, Some(MAX_AGE + Decimal(n)), false, None) == Some(n)
  {
    var d := Decimal(n);
    DecimalEnds(d);
    DigitsValueOfDecimal(n);
    hide Trim;
    hide Split;
    hide Decimal;
    assert (MAX_AGE + d)[|MAX_AGE|..] == d;
    MaxAgeIsNoDirective(d);
    hide HasDirective;
  }

  lemma MaxAgeIsNoDirective(d: string)
    requires '=' !in d
    requires Split(MAX_AGE + d, ',') == [MAX_AGE + d] && Trim(MAX_AGE + d) == MAX_AGE + d
    ensures DirectiveName(MAX_AGE + d) == "max-age"
    ensures forall x | HasDirective(Some(MAX_AGE + d), x) :: x == "max-age"
  {
    hide Trim;
    hide Split;
    var name := "max-age";
    assert MAX_AGE + d == name + ['='] + d;
    SplitConcat(name, d, '=');
    SplitWithout(name, '=');
    TrimOfTrimmed(name);
  }

  // ---------- The hidden Vary ----------

  lemma DifferentLengths(a: string, b: string)
    requires |a| != |b|
    ensures !EqIgnoreAsciiCase(a, b)
  {
    assert |Lower(a)| == |a| && |Lower(b)| == |b|;
  }

  lemma CookieNotCacheable()
    ensures !VaryCacheable(Some("cookie"))
  {
    TrimOfTrimmed("cookie");
    SplitWithout("cookie", ',');
    DifferentLengths("cookie", "accept-encoding");
    assert "cookie" in Split("cookie", ',');
  }

  /** Two `Vary` headers, the first of which holds a byte that only the second listing of headers drops. */
  function HiddenVaryHeaders(n: nat, etag: string): seq<Header> {
    [Header("cache-control", MAX_AGE + Decimal(n)), Header("vary", "\U{80}"), Header("vary", "cookie"), Header("etag", etag)]
  }

  lemma HeaderStep(h: Header, rest: seq<Header>, name: string)
    ensures FirstValue([h] + rest, name) == if EqIgnoreAsciiCase(h.name, name) then Some(h.value) else FirstValue(rest, name)
    ensures FirstVisible([h] + rest, name)
         == if EqIgnoreAsciiCase(h.name, name) && Visible(h.value) then Some(h.value) else FirstVisible(rest, name)
  {
    assert ([h] + rest)[1..] == rest;
  }

  lemma HiddenVaryLookup(n: nat, etag: string)
    ensures var headers, value := HiddenVaryHeaders(n, etag), MAX_AGE + Decimal(n);
            && FirstValue(headers, "cache-control") == Some(value) && FirstValue(headers, "set-cookie") == None
            && FirstValue(headers, "vary") == Some("\U{80}") && FirstVisible(headers, "vary") == Some("cookie")
            && (Visible(etag) ==> FirstVisible(headers, "etag") == Some(etag))
  {
    var value := MAX_AGE + Decimal(n);
    var h1, h2, h3, h4 := Header("cache-control", value), Header("vary", "\U{80}"), Header("vary", "cookie"), Header("etag", etag);
    assert Visible("cookie");
    assert '\U{80}' in "\U{80}" && !Visible("\U{80}");
    DifferentNames();
    SameNames();
    hide Visible;
    hide EqIgnoreAsciiCase;
    hide FirstValue;
    hide FirstVisible;
    assert HiddenVaryHeaders(n, etag) == [h1] + ([h2] + ([h3] + ([h4] + [])));
    forall name ensures FirstValue([], name) == None && FirstVisible([], name) == None {
      NoHeaders(name);
    }
    forall name, h: Header, rest
      ensures FirstValue([h] + rest, name) == if EqIgnoreAsciiCase(h.name, name) then Some(h.value) else FirstValue(rest, name)
      ensures FirstVisible([h] + rest, name)
           == if EqIgnoreAsciiCase(h.name, name) && Visible(h.value) then Some(h.value) else FirstVisible(rest, name)
    {
      HeaderStep(h, rest, name);
    }
  }

  lemma NoHeaders(name: string)
    ensures FirstValue([], name) == None && FirstVisible([], name) == None
  {
  }

  /**
   An input, receivable for every lifetime and validator, for which the two lifetimes differ: the
   unprintable first `Vary` is ignored when the response is stored, and gone when it is revalidated,
   where the second one rules caching out.
   */
  lemma HiddenVary(n: nat, etag: string, body: seq<byte>)
    requires 0 < n < 0x1_0000_0000_0000_0000 && Visible(etag)
    ensures var headers := HiddenVaryHeaders(n, etag);
            && (forall h | h in headers :: Receivable(h.value))
            && CaptureTtl(200, headers) == Some(n)
            && StoredTtl(Response(200, Captured(headers), body)) == None
            && FirstValue(Captured(headers), "etag") == Some(etag)
  {
    var headers, value := HiddenVaryHeaders(n, etag), MAX_AGE + Decimal(n);
    assert Visible(value) && Receivable("cookie") && Receivable("\U{80}");
    assert '\U{80}' in "\U{80}" && !Visible("\U{80}");
    hide FirstValue;
    hide Captured;
    hide Decimal;
    hide HasDirective;
    HiddenVaryLookup(n, etag);
    MaxAgeOfDecimal(n);
    KeptNames();
    FirstValueOfCaptured(headers, "vary");
    FirstValueOfCaptured(headers, "etag");
    CookieNotCacheable();
    hide VaryCacheable;
  }

  lemma DifferentNames()
    ensures !EqIgnoreAsciiCase("cache-control", "vary") && !EqIgnoreAsciiCase("cache-control", "set-cookie")
    ensures !EqIgnoreAsciiCase("vary", "set-cookie") && !EqIgnoreAsciiCase("vary", "cache-control")
    ensures !EqIgnoreAsciiCase("etag", "set-cookie") && !EqIgnoreAsciiCase("etag", "cache-control")
    ensures !EqIgnoreAsciiCase("cache-control", "etag") && !EqIgnoreAsciiCase("vary", "etag")
    ensures !EqIgnoreAsciiCase("etag", "vary")
  {
    assert Lower("etag")[0] == 'e' && Lower("vary")[0] == 'v';
    assert |Lower("etag")| == 4 && |Lower("vary")| == 4 && |Lower("set-cookie")| == 10 && |Lower("cache-control")| == 13;
  }

  lemma SameNames()
    ensures forall s :: EqIgnoreAsciiCase(s, s)
  {
  }

  // ---------- If-None-Match ----------

  const WEAK := "W/"

  /** A validator without its surrounding spaces and, once, without `W/` in front. */
  function StripWeak(etag: string): string {
    var t := Trim(etag);
    Trim(if WEAK <= t then t[|WEAK|..] else etag)
  }

  predicate IfNoneMatchSatisfied(ifNoneMatch: string, etag: string) {
    var value := Trim(ifNoneMatch);
    value == "*" || exists candidate | candidate in Split(value, ',') :: StripWeak(Trim(candidate)) == StripWeak(etag)
  }

  lemma {:induction false} TrimStartKeeps(s: string, c: char)
    requires !IsSpace(c) && c in s
    ensures c in TrimStart(s)
  {
    if s != "" && IsSpace(s[0]) {
      TrimStartKeeps(s[1..], c);
    }
  }

  lemma {:induction false} TrimEndKeeps(s: string, c: char)
    requires !IsSpace(c) && c in s
    ensures c in TrimEnd(s)
  {
    if s != "" && IsSpace(s[|s| - 1]) {
      assert s == s[..|s| - 1] + [s[|s| - 1]];
      TrimEndKeeps(s[..|s| - 1], c);
    }
  }

  lemma CommaInTrim(s: string)
    ensures ',' in Trim(s) <==> ',' in s
  {
    TrimFacts(s);
    if ',' in s {
      TrimStartKeeps(s, ',');
      TrimEndKeeps(TrimStart(s), ',');
    }
  }

  lemma CommaInStripWeak(s: string)
    ensures ',' in StripWeak(s) <==> ',' in s
  {
    var t := Trim(s);
    CommaInTrim(s);
    CommaInTrim(t);
    if WEAK <= t {
      assert t == WEAK + t[|WEAK|..];
      CommaInTrim(t[|WEAK|..]);
    }
  }

  lemma StripWeakOfTrim(s: string)
    ensures StripWeak(Trim(Trim(s))) == StripWeak(s)
  {
    TrimFacts(s);
    TrimOfTrimmed(Trim(s));
  }

  /**
   A client that sends back the validator it was given gets a `304` exactly when the validator has no
   comma: a list is cut at every comma, quoted or not.
   */
  lemma OwnEtagMatches(etag: string)
    ensures IfNoneMatchSatisfied(etag, etag) <==> ',' !in etag
  {
    hide StripWeak;
    var value := Trim(etag);
    CommaInTrim(etag);
    CommaInStripWeak(etag);
    if ',' !in etag {
      SplitWithout(value, ',');
      StripWeakOfTrim(etag);
      assert value in Split(value, ',');
    } else {
      forall candidate | candidate in Split(value, ',')
        ensures StripWeak(Trim(candidate)) != StripWeak(etag)
      {
        CommaInTrim(candidate);
        CommaInStripWeak(Trim(candidate));
      }
    }
  }
}
