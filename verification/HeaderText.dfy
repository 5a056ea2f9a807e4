/**
 What header text means, read straight off its characters: which directives a `Cache-Control` list
 names, which lifetime it gives, what `Vary` names, which codings a client accepts, which validators
 agree. The functions of `Policy` and `CacheKey`, which cut, trim and compare, are proved to read exactly that.
 */
module HeaderText {
  import opened Base
  import opened Text
  import opened TextShape
  import opened Codec
  import opened Policy
  import opened CacheKey

  // ---------- Directives ----------

  lemma DirectiveNameExactly(part: string, directive: string)
    requires Bare(directive) && '=' !in directive
    ensures DirectiveName(part) == directive <==> Headed(part, directive, '=')
  {
    TrimmedList(part, '=');
    HeadExactly(part, directive, '=');
    hide Trim;
    hide Split;
  }

  ghost predicate Lists(cacheControl: Option<string>, directive: string) {
    cacheControl.Some? && exists part :: part in Split(cacheControl.value, ',') && Headed(part, directive, '=')
  }

  lemma HasDirectiveExactly(cacheControl: Option<string>, directive: string)
    requires Bare(directive) && '=' !in directive
    ensures HasDirective(cacheControl, directive) <==> Lists(cacheControl, directive)
  {
    hide DirectiveName;
    hide Headed;
    forall part ensures DirectiveName(part) == directive <==> Headed(part, directive, '=') {
      DirectiveNameExactly(part, directive);
    }
  }

  // ---------- Lifetimes ----------

  predicate AllDigits(s: string) {
    forall i | 0 <= i < |s| :: '0' <= s[i] <= '9'
  }

  /** The number a row of digits stands for, the last one counting ones. */
  function Numeral(s: string): nat
    requires AllDigits(s)
  {
    if s == "" then 0 else 10 * Numeral(s[..|s| - 1]) + (s[|s| - 1] as int - '0' as int)
  }

  predicate NumberText(s: string, n: nat) {
    var digits := if "+" <= s then s[1..] else s;
    digits != "" && AllDigits(digits) && Numeral(digits) == n
  }

  /** `max-age=` and a number of 64 bits, with white space before, between and after. */
  ghost predicate GivesAge(part: string, n: nat) {
    && n < 0x1_0000_0000_0000_0000
    && exists pre, mid, number, post ::
         Blank(pre) && Blank(mid) && NumberText(number, n) && Blank(post)
         && part == pre + "max-age=" + (mid + number + post)
  }

  lemma {:induction false} DigitsValueExactly(s: string)
    ensures DigitsValue(s, 0) == if AllDigits(s) then Some(Numeral(s)) else None
  {
    if s != "" {
      var n := |s| - 1;
      assert s == s[..n] + [s[n]];
      DigitsValueExactly(s[..n]);
      if AllDigits(s) {
        DigitsValueSnoc(s[..n], s[n], 0);
      } else {
        NotDigits(s, 0);
      }
    }
  }

  lemma {:induction false} NotDigits(s: string, acc: nat)
    requires !AllDigits(s)
    ensures DigitsValue(s, acc) == None
  {
    if s != "" && IsDigit(s[0]) {
      assert s == [s[0]] + s[1..];
      NotDigits(s[1..], 10 * acc + (s[0] as int - '0' as int));
    }
  }

  lemma ParseU64Exactly(s: string, n: nat)
    ensures ParseU64(s) == Some(n) <==> NumberText(s, n) && n < 0x1_0000_0000_0000_0000
  {
    var digits := if "+" <= s then s[1..] else s;
    assert "+" <= s <==> s != "" && s[0] == '+';
    DigitsValueExactly(digits);
  }

  lemma NumberIsBare(s: string, n: nat)
    requires NumberText(s, n)
    ensures s != "" && Bare(s)
  {
    var digits := if "+" <= s then s[1..] else s;
    assert s[|s| - 1] == digits[|digits| - 1];
  }

  lemma PartMaxAgeExactly(part: string, n: nat)
    ensures PartMaxAge(part) == Some(n) <==> GivesAge(part, n)
  {
    hide Trim;
    hide ParseU64;
    hide NumberText;
    var a, b := TrimPads(part);
    var core := Trim(part);
    if MAX_AGE <= core {
      var tail := core[|MAX_AGE|..];
      var c, d := TrimPads(tail);
      var number := Trim(tail);
      ParseU64Exactly(number, n);
      if ParseU64(number) == Some(n) {
        assert core == MAX_AGE + tail;
        BlankConcat(d, b);
        assert part == a + "max-age=" + (c + number + (d + b));
      }
    }
    if GivesAge(part, n) {
      var pre, mid, number, post :|
        Blank(pre) && Blank(mid) && NumberText(number, n) && Blank(post) && part == pre + "max-age=" + (mid + number + post);
      NumberIsBare(number, n);
      var core' := "max-age=" + (mid + number);
      assert part == pre + core' + post;
      TrimOfPadded(pre, core', post);
      assert core'[|MAX_AGE|..] == mid + number + "";
      TrimOfPadded(mid, number, "");
      ParseU64Exactly(number, n);
    }
  }

  /** The first element that gives a lifetime gives this one. */
  ghost predicate FirstAge(parts: seq<string>, n: nat) {
    exists k :: 0 <= k < |parts| && GivesAge(parts[k], n) && NoAge(parts[..k])
  }

  ghost predicate NoAge(parts: seq<string>) {
    forall part, n: nat | part in parts :: !GivesAge(part, n)
  }

  lemma PartGivesNoAge(part: string)
    ensures PartMaxAge(part) == None <==> forall n: nat :: !GivesAge(part, n)
  {
    hide GivesAge;
    hide PartMaxAge;
    forall n: nat ensures PartMaxAge(part) == Some(n) <==> GivesAge(part, n) {
      PartMaxAgeExactly(part, n);
    }
    if PartMaxAge(part).Some? {
      assert GivesAge(part, PartMaxAge(part).value);
    }
  }

  lemma {:induction false} FirstMaxAgeExactly(parts: seq<string>, n: nat)
    ensures FirstMaxAge(parts) == Some(n) <==> FirstAge(parts, n)
  {
    hide GivesAge;
    hide PartMaxAge;
    if parts != [] {
      var first, rest := parts[0], parts[1..];
      PartMaxAgeExactly(first, n);
      PartGivesNoAge(first);
      FirstMaxAgeExactly(rest, n);
      if FirstAge(rest, n) && PartMaxAge(first).None? {
        var k :| 0 <= k < |rest| && GivesAge(rest[k], n) && NoAge(rest[..k]);
        assert parts[..k + 1] == [first] + rest[..k];
        assert parts[k + 1] == rest[k];
      }
      if FirstAge(parts, n) {
        var k :| 0 <= k < |parts| && GivesAge(parts[k], n) && NoAge(parts[..k]);
        if k > 0 {
          assert first in parts[..k];
          assert forall part | part in rest[..k - 1] :: part in parts[..k];
          assert rest[k - 1] == parts[k];
        }
      }
    }
  }

  // ---------- What may be stored, and for how long ----------

  ghost predicate Forbids(part: string) {
    Headed(part, "no-store", '=') || Headed(part, "no-cache", '=') || Headed(part, "private", '=')
  }

  /** A list that gives a positive lifetime, and whose every element leaves it be. */
  ghost predicate Permits(cacheControl: string, n: nat) {
    && n > 0 && FirstAge(Split(cacheControl, ','), n)
    && forall part | part in Split(cacheControl, ',') :: !Forbids(part)
  }

  /** Only `Accept-Encoding`, in any case and with any white space. */
  ghost predicate VariesOnCoding(vary: string) {
    forall token | token in Split(vary, ',') :: exists word :: Padded(token, word) && Spells(word, "accept-encoding")
  }

  lemma TokenIsAcceptEncoding(token: string)
    ensures EqIgnoreAsciiCase(Trim(token), "accept-encoding")
       <==> exists word :: Padded(token, word) && Spells(word, "accept-encoding")
  {
    hide Trim;
    hide EqIgnoreAsciiCase;
    EqIgnoreCaseExactly(Trim(token), "accept-encoding");
    TrimExactly(token, Trim(token));
    hide Padded;
    if word :| Padded(token, word) && Spells(word, "accept-encoding") {
      assert word[0] != ' ' && Bare(word);
      TrimExactly(token, word);
    }
  }

  lemma VaryExactly(vary: string)
    ensures VaryCacheable(Some(vary)) <==> VariesOnCoding(vary)
  {
    TrimmedList(vary, ',');
    hide Padded;
    hide Spells;
    hide Split;
    forall token: string
      ensures EqIgnoreAsciiCase(Trim(token), "accept-encoding")
         <==> exists word :: Padded(token, word) && Spells(word, "accept-encoding")
    {
      TokenIsAcceptEncoding(token);
    }
    if Trim(vary) == "*" {
      StarIsNoToken(vary);
    }
    var all, parts := Split(vary, ','), Split(Trim(vary), ',');
    hide Trim;
    hide EqIgnoreAsciiCase;
    if VaryCacheable(Some(vary)) {
      forall token | token in all ensures EqIgnoreAsciiCase(Trim(token), "accept-encoding") {
        var i :| 0 <= i < |all| && all[i] == token;
        assert parts[i] in parts;
      }
    }
    if VariesOnCoding(vary) {
      forall token | token in parts ensures EqIgnoreAsciiCase(Trim(token), "accept-encoding") {
        var i :| 0 <= i < |parts| && parts[i] == token;
        assert all[i] in all;
      }
    }
  }

  lemma StarIsNoToken(vary: string)
    requires Trim(vary) == "*"
    ensures "*" in Split(Trim(vary), ',') && !EqIgnoreAsciiCase(Trim("*"), "accept-encoding")
  {
    SplitWithout("*", ',');
    TrimOfTrimmed("*");
    DifferentLengths("*", "accept-encoding");
  }

  /**
   The decision to store, on header text: a 200 without cookies, with no `Vary` but on the coding, and with
   a `Cache-Control` list that gives a lifetime and names none of the three directives that forbid it.
   */
  lemma ResponseTtlExactly(status: u16, cacheControl: Option<string>, hasSetCookie: bool, vary: Option<string>, n: nat)
    ensures ResponseTtl(status, cacheControl, hasSetCookie, vary) == Some(n)
       <==> && status == 200 && !hasSetCookie && (vary.Some? ==> VariesOnCoding(vary.value))
            && cacheControl.Some? && Permits(cacheControl.value, n)
  {
    HasDirectiveExactly(cacheControl, "no-store");
    HasDirectiveExactly(cacheControl, "no-cache");
    HasDirectiveExactly(cacheControl, "private");
    if vary.Some? {
      VaryExactly(vary.value);
    }
    if cacheControl.Some? {
      FirstMaxAgeExactly(Split(cacheControl.value, ','), n);
    }
    hide HasDirective;
    hide VaryCacheable;
    hide VariesOnCoding;
    hide FirstMaxAge;
    hide FirstAge;
    hide Headed;
    hide Split;
  }

  /** One element that forbids it, wherever it stands in the list, stops any response from being stored. */
  lemma ForbiddenAnywhere(parts: seq<string>, i: nat, status: u16, hasSetCookie: bool, vary: Option<string>)
    requires (forall part | part in parts :: ',' !in part) && i < |parts| && Forbids(parts[i])
    ensures ResponseTtl(status, Some(Join(parts, ',')), hasSetCookie, vary) == None
  {
    var list := Join(parts, ',');
    SplitOfJoin(parts, ',');
    var ttl := ResponseTtl(status, Some(list), hasSetCookie, vary);
    hide ResponseTtl;
    if ttl.Some? {
      ResponseTtlExactly(status, Some(list), hasSetCookie, vary, ttl.value);
      hide Forbids;
      assert parts[i] in Split(list, ',');
    }
  }

  /** Directives are read in lower case only: with any lifetime before it, `Private` forbids nothing. */
  lemma CaseMatters(n: nat)
    requires 0 < n < 0x1_0000_0000_0000_0000
    ensures ResponseTtl(200, Some(MAX_AGE + Decimal(n) + ",Private"), false, None) == Some(n)
  {
    var age, list := MAX_AGE + Decimal(n), MAX_AGE + Decimal(n) + ",Private";
    AgeThenPrivate(n);
    hide Decimal;
    hide Split;
    hide DirectiveName;
    hide FirstMaxAge;
    assert !HasDirective(Some(list), "no-store") && !HasDirective(Some(list), "no-cache") && !HasDirective(Some(list), "private");
    hide HasDirective;
    MaxAgeOfDecimal(n);
    DecimalEnds(Decimal(n));
    FirstIsEnough(age, "Private", n);
  }

  lemma AgeThenPrivate(n: nat)
    requires 0 < n < 0x1_0000_0000_0000_0000
    ensures var age := MAX_AGE + Decimal(n);
            && Split(age + ",Private", ',') == [age, "Private"]
            && DirectiveName(age) == "max-age" && DirectiveName("Private") == "Private"
  {
    var age := MAX_AGE + Decimal(n);
    hide *;
    DecimalEnds(Decimal(n));
    MaxAgeIsNoDirective(Decimal(n));
    PrivateIsItself();
    assert age + ",Private" == age + [','] + "Private";
    SplitConcat(age, "Private", ',');
  }

  lemma PrivateIsItself()
    ensures DirectiveName("Private") == "Private" && Split("Private", ',') == ["Private"]
  {
    SplitWithout("Private", ',');
    SplitWithout("Private", '=');
    TrimOfTrimmed("Private");
  }

  lemma FirstIsEnough(first: string, second: string, n: nat)
    requires FirstMaxAge([first]) == Some(n)
    ensures FirstMaxAge([first, second]) == Some(n)
  {
    hide PartMaxAge;
  }

  /** A request may use the cache: a `GET` without credentials that lists neither directive. */
  lemma RequestCacheableExactly(method_: string, cacheControl: Option<string>, hasAuthorization: bool)
    ensures RequestCacheable(method_, cacheControl, hasAuthorization)
       <==> method_ == "GET" && !hasAuthorization && !Lists(cacheControl, "no-store") && !Lists(cacheControl, "no-cache")
  {
    HasDirectiveExactly(cacheControl, "no-store");
    HasDirectiveExactly(cacheControl, "no-cache");
    hide HasDirective;
    hide Lists;
  }

  // ---------- Headers ----------

  /** The first header of that name, in any case. */
  ghost predicate First(headers: seq<Header>, name: string, value: string) {
    exists k :: 0 <= k < |headers| && headers[k].value == value && Spells(headers[k].name, name) && Without(headers[..k], name)
  }

  ghost predicate Without(headers: seq<Header>, name: string) {
    forall h | h in headers :: !Spells(h.name, name)
  }

  lemma FirstStep(h: Header, rest: seq<Header>, name: string, value: string)
    ensures First([h] + rest, name, value) <==> if Spells(h.name, name) then h.value == value else First(rest, name, value)
    ensures Without([h] + rest, name) <==> !Spells(h.name, name) && Without(rest, name)
  {
    hide Spells;
    var headers := [h] + rest;
    assert headers[0] == h && headers[..0] == [];
    if First(rest, name, value) && !Spells(h.name, name) {
      var k :| 0 <= k < |rest| && rest[k].value == value && Spells(rest[k].name, name) && Without(rest[..k], name);
      assert headers[..k + 1] == [h] + rest[..k] && headers[k + 1] == rest[k];
    }
    if First(headers, name, value) {
      var k :| 0 <= k < |headers| && headers[k].value == value && Spells(headers[k].name, name) && Without(headers[..k], name);
      if k > 0 {
        assert headers[..k] == [h] + rest[..k - 1] && rest[k - 1] == headers[k];
      }
    }
  }

  lemma {:induction false} FirstValueExactly(headers: seq<Header>, name: string, value: string)
    requires IsLower(name)
    ensures FirstValue(headers, name) == Some(value) <==> First(headers, name, value)
    ensures FirstValue(headers, name) == None <==> Without(headers, name)
  {
    if headers != [] {
      assert headers == [headers[0]] + headers[1..];
      EqIgnoreCaseExactly(headers[0].name, name);
      FirstStep(headers[0], headers[1..], name, value);
      FirstValueExactly(headers[1..], name, value);
      hide First;
      hide Without;
      hide Spells;
      hide EqIgnoreAsciiCase;
    }
  }

  /** What a response head says about storing the response for `n` seconds. */
  ghost predicate MayStore(status: u16, headers: seq<Header>, n: nat) {
    && status == 200 && Without(headers, "set-cookie")
    && (exists cc :: First(headers, "cache-control", cc) && Visible(cc) && Permits(cc, n))
    && (forall vary | First(headers, "vary", vary) && Visible(vary) :: VariesOnCoding(vary))
  }

  lemma HeaderNames()
    ensures IsLower("set-cookie") && IsLower("cache-control") && IsLower("vary") && IsLower("etag")
  {
  }

  /** The same decision on the whole response head. */
  lemma CaptureTtlExactly(status: u16, headers: seq<Header>, n: nat)
    ensures CaptureTtl(status, headers) == Some(n) <==> MayStore(status, headers, n)
  {
    var cc, cookie, vary := FirstValue(headers, "cache-control"), FirstValue(headers, "set-cookie"), FirstValue(headers, "vary");
    HeaderNames();
    hide IsLower;
    hide FirstValue;
    hide First;
    hide Without;
    hide Permits;
    hide VariesOnCoding;
    forall value ensures cc == Some(value) <==> First(headers, "cache-control", value) {
      FirstValueExactly(headers, "cache-control", value);
    }
    forall value ensures vary == Some(value) <==> First(headers, "vary", value) {
      FirstValueExactly(headers, "vary", value);
    }
    FirstValueExactly(headers, "set-cookie", "");
    ResponseTtlExactly(status, ToStr(cc), cookie.Some?, ToStr(vary), n);
    hide ResponseTtl;
    hide Visible;
  }

  /** Stored headers that let the response be kept for `n` seconds, should an origin confirm it. */
  ghost predicate GivesBack(headers: seq<Header>, n: nat) {
    && (exists cc :: First(headers, "cache-control", cc) && Permits(cc, n))
    && (forall vary | First(headers, "vary", vary) :: VariesOnCoding(vary))
  }

  lemma StoredTtlExactly(r: Response, n: nat)
    ensures StoredTtl(r) == Some(n) <==> GivesBack(r.headers, n)
  {
    var cc, vary := FirstValue(r.headers, "cache-control"), FirstValue(r.headers, "vary");
    HeaderNames();
    hide IsLower;
    hide FirstValue;
    hide First;
    hide Without;
    hide Permits;
    hide VariesOnCoding;
    forall value ensures cc == Some(value) <==> First(r.headers, "cache-control", value) {
      FirstValueExactly(r.headers, "cache-control", value);
    }
    forall value ensures vary == Some(value) <==> First(r.headers, "vary", value) {
      FirstValueExactly(r.headers, "vary", value);
    }
    ResponseTtlExactly(200, cc, false, vary, n);
    hide ResponseTtl;
  }

  lemma StoredTtlNever(r: Response)
    ensures StoredTtl(r) == None <==> forall n: nat :: !GivesBack(r.headers, n)
  {
    hide StoredTtl;
    hide GivesBack;
    forall n: nat ensures StoredTtl(r) == Some(n) <==> GivesBack(r.headers, n) {
      StoredTtlExactly(r, n);
    }
  }

  lemma EtagExactly(r: Response)
    ensures Etag(r) == None <==> Without(r.headers, "etag")
  {
    HeaderNames();
    FirstValueExactly(r.headers, "etag", "");
  }

  const CONNECTION_HEADERS: seq<string> :=
    ["connection", "keep-alive", "proxy-connection", "transfer-encoding", "upgrade", "content-length"]

  lemma UncacheableExactly(name: string)
    ensures IsUncacheableHeader(name) <==> exists i :: 0 <= i < 6 && Spells(name, CONNECTION_HEADERS[i])
  {
    forall i | 0 <= i < 6 ensures Lower(name) == CONNECTION_HEADERS[i] <==> Spells(name, CONNECTION_HEADERS[i]) {
      LowerExactly(name, CONNECTION_HEADERS[i]);
    }
    hide Lower;
    hide Spells;
    assert CONNECTION_HEADERS[0] == "connection" && CONNECTION_HEADERS[1] == "keep-alive";
    assert CONNECTION_HEADERS[2] == "proxy-connection" && CONNECTION_HEADERS[3] == "transfer-encoding";
    assert CONNECTION_HEADERS[4] == "upgrade" && CONNECTION_HEADERS[5] == "content-length";
  }

  /** What is stored of a header list: the headers that are not about the connection and are printable, in their order. */
  lemma CapturedExactly(a: seq<Header>, h: Header, b: seq<Header>)
    ensures Captured(a + [h] + b) == Captured(a) + (if KeptHeader(h) then [h] else []) + Captured(b)
    ensures Captured([]) == []
    ensures KeptHeader(h) <==> Visible(h.value) && forall i | 0 <= i < 6 :: !Spells(h.name, CONNECTION_HEADERS[i])
  {
    UncacheableExactly(h.name);
    hide IsUncacheableHeader;
    hide Spells;
    hide Visible;
    CapturedConcat(a + [h], b);
    CapturedConcat(a, [h]);
    assert Captured([h]) == if KeptHeader(h) then [h] else [];
  }

  lemma CapturedCons(h: Header, rest: seq<Header>)
    ensures Captured([h] + rest) == (if KeptHeader(h) then [h] else []) + Captured(rest)
  {
    hide KeptHeader;
    assert ([h] + rest)[1..] == rest;
  }

  lemma {:induction false} CapturedConcat(a: seq<Header>, b: seq<Header>)
    ensures Captured(a + b) == Captured(a) + Captured(b)
  {
    if a == [] {
      assert a + b == b;
    } else {
      var h, rest := a[0], a[1..];
      assert a == [h] + rest && a + b == [h] + (rest + b);
      CapturedCons(h, rest);
      CapturedCons(h, rest + b);
      CapturedConcat(rest, b);
      hide Captured;
      hide KeptHeader;
    }
  }

  // ---------- Codings ----------

  /** A lower-case name with nothing around it that a list would drop. */
  predicate CodingName(c: string) {
    c != "" && Bare(c) && ';' !in c && forall i | 0 <= i < |c| :: !('A' <= c[i] <= 'Z')
  }

  /** The element names the coding: in any case, with any white space around it, and any parameters. */
  ghost predicate NamesCoding(part: string, c: string) {
    exists word :: Spells(word, c) && Headed(part, word, ';')
  }

  lemma CodingExactly(part: string, c: string)
    requires CodingName(c)
    ensures Coding(part) == c <==> NamesCoding(part, c)
  {
    var word := Trim(Split(part, ';')[0]);
    SplitHeadTail(part, ';');
    TrimFacts(Split(part, ';')[0]);
    BareIsTrimmed(word);
    HeadExactly(part, word, ';');
    LowerExactly(word, c);
    hide Headed;
    hide Lower;
    hide Trim;
    hide Split;
    if NamesCoding(part, c) {
      var w :| Spells(w, c) && Headed(part, w, ';');
      SpelledIsBare(w, c);
      HeadExactly(part, w, ';');
    }
  }

  lemma SpelledIsBare(word: string, c: string)
    requires CodingName(c) && Spells(word, c)
    ensures Bare(word) && ';' !in word
  {
    forall i | 0 <= i < |word| ensures word[i] != ';' {
      assert c[i] in c;
    }
  }

  lemma {:induction false} InCodings(parts: seq<string>, c: string)
    requires c != ""
    ensures c in Codings(parts) <==> exists part :: part in parts && Coding(part) == c
  {
    hide Coding;
    if parts != [] {
      InCodings(parts[1..], c);
      assert parts == [parts[0]] + parts[1..];
    }
  }

  /** The codings of a header, on its text: the names its elements spell. Without a header there are none. */
  lemma CodingSetExactly(acceptEncoding: string, c: string)
    ensures c in CodingSet(Some(acceptEncoding))
       <==> CodingName(c) && exists part :: part in Split(acceptEncoding, ',') && NamesCoding(part, c)
    ensures CodingSet(None) == {}
  {
    hide NamesCoding;
    CanonicalTokens(Some(acceptEncoding));
    CodingsHaveNames(Some(acceptEncoding), c);
    if CodingName(c) {
      InCodings(Split(acceptEncoding, ','), c);
      forall part ensures Coding(part) == c <==> NamesCoding(part, c) {
        CodingExactly(part, c);
      }
    }
    NoCodings();
  }

  lemma CodingsHaveNames(a: Option<string>, c: string)
    ensures c in CodingSet(a) ==> CodingName(c)
  {
    CanonicalTokens(a);
    BareIsTrimmed(c);
    hide CodingSet;
  }

  lemma NoCodings()
    ensures CodingSet(None) == {}
  {
    assert Coding("") == "";
    assert Codings([""]) == [];
  }

  // ---------- Validators ----------

  /** The text gives this validator, weak or strong, with any white space. */
  ghost predicate Denotes(text: string, tag: string) {
    && Bare(tag)
    && if "W/" <= tag then DenotesWeakly(text, tag) else DenotesWeakly(text, tag) || Padded(text, tag)
  }

  ghost predicate DenotesWeakly(text: string, tag: string) {
    exists pre, mid, post :: Blank(pre) && Blank(mid) && Blank(post) && text == pre + "W/" + (mid + tag + post)
  }

  lemma TrimOfWeak(pre: string, mid: string, tag: string, post: string)
    requires Blank(pre) && Blank(mid) && Blank(post) && Bare(tag)
    ensures var text := pre + "W/" + (mid + tag + post);
            Trim(text) == if tag == "" then "W/" else "W/" + (mid + tag)
  {
    if tag == "" {
      BlankConcat(mid, post);
      assert pre + "W/" + (mid + tag + post) == pre + "W/" + (mid + post);
      TrimOfPadded(pre, "W/", mid + post);
    } else {
      assert pre + "W/" + (mid + tag + post) == pre + ("W/" + (mid + tag)) + post;
      TrimOfPadded(pre, "W/" + (mid + tag), post);
    }
  }

  lemma StripWeakExactly(text: string, tag: string)
    ensures StripWeak(text) == tag <==> Denotes(text, tag)
  {
    var a, b := TrimPads(text);
    var t := Trim(text);
    hide Trim;
    if "W/" <= t {
      var rest := t[2..];
      var c, d := TrimPads(rest);
      BlankConcat(d, b);
      assert t == "W/" + rest && StripWeak(text) == Trim(rest);
      assert text == a + "W/" + (c + Trim(rest) + (d + b));
      assert DenotesWeakly(text, Trim(rest));
    } else {
      assert StripWeak(text) == t && Padded(text, t);
    }
    assert Denotes(text, StripWeak(text));
    if Denotes(text, tag) {
      DenotedOnce(text, tag);
    }
  }

  lemma DenotedOnce(text: string, tag: string)
    requires Denotes(text, tag)
    ensures StripWeak(text) == tag
  {
    hide Trim;
    if DenotesWeakly(text, tag) {
      var pre, mid, post :| Blank(pre) && Blank(mid) && Blank(post) && text == pre + "W/" + (mid + tag + post);
      TrimOfWeak(pre, mid, tag, post);
      if tag == "" {
        assert "W/"[2..] == "" + "" + "";
        TrimOfPadded("", "", "");
      } else {
        assert ("W/" + (mid + tag))[2..] == mid + tag + "";
        TrimOfPadded(mid, tag, "");
      }
    } else {
      TrimExactly(text, tag);
    }
  }

  /** Weak comparison of a list with one validator, or `*` alone. */
  lemma IfNoneMatchExactly(ifNoneMatch: string, etag: string)
    ensures IfNoneMatchSatisfied(ifNoneMatch, etag)
       <==> Padded(ifNoneMatch, "*")
            || exists candidate, tag :: candidate in Split(ifNoneMatch, ',') && Denotes(candidate, tag) && Denotes(etag, tag)
  {
    var all, parts := Split(ifNoneMatch, ','), Split(Trim(ifNoneMatch), ',');
    TrimmedList(ifNoneMatch, ',');
    TrimExactly(ifNoneMatch, "*");
    hide Split;
    hide Denotes;
    hide Padded;
    forall text, tag ensures StripWeak(text) == tag <==> Denotes(text, tag) {
      StripWeakExactly(text, tag);
    }
    forall i | 0 <= i < |all| ensures StripWeak(Trim(parts[i])) == StripWeak(all[i]) {
      TrimFacts(all[i]);
      TrimOfTrimmed(Trim(all[i]));
      StripWeakOfTrim(all[i]);
    }
    hide StripWeak;
    hide Trim;
    if candidate :| candidate in parts && StripWeak(Trim(candidate)) == StripWeak(etag) {
      var i :| 0 <= i < |parts| && parts[i] == candidate;
      assert all[i] in all && Denotes(all[i], StripWeak(etag));
    }
    if candidate, tag :| candidate in all && Denotes(candidate, tag) && Denotes(etag, tag) {
      var i :| 0 <= i < |all| && all[i] == candidate;
      assert parts[i] in parts;
    }
  }
}
