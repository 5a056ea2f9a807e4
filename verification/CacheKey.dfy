/**
 The cache key of a request: host, path and query, a unit separator, and a canonical form of
 `Accept-Encoding`.
 */
module CacheKey {
  import opened Base
  import opened Text

  // ---------- Ordering strings ----------

  /** The order `sort` uses on strings. */
  predicate Less(a: string, b: string) {
    b != "" && (a == "" || a[0] < b[0] || (a[0] == b[0] && Less(a[1..], b[1..])))
  }

  lemma {:induction false} LessTransitive(a: string, b: string, c: string)
    requires Less(a, b) && Less(b, c)
    ensures Less(a, c)
  {
    if a != "" && a[0] == b[0] == c[0] {
      LessTransitive(a[1..], b[1..], c[1..]);
    }
  }

  lemma {:induction false} LessIrreflexive(a: string)
    ensures !Less(a, a)
  {
    if a != "" {
      LessIrreflexive(a[1..]);
    }
  }

  lemma {:induction false} LessTotal(a: string, b: string)
    ensures Less(a, b) || Less(b, a) || a == b
  {
    if a != "" && b != "" && a[0] == b[0] {
      LessTotal(a[1..], b[1..]);
      if a[1..] == b[1..] {
        assert a == [a[0]] + a[1..] && b == [b[0]] + b[1..];
      }
    }
  }

  // ---------- sort, dedup ----------

  predicate Sorted(s: seq<string>) {
    forall i | 0 < i < |s| :: !Less(s[i], s[i - 1])
  }

  predicate StrictlySorted(s: seq<string>) {
    forall i, j | 0 <= i < j < |s| :: Less(s[i], s[j])
  }

  function Insert(x: string, s: seq<string>): (t: seq<string>)
    ensures multiset(t) == multiset(s) + multiset{x}
    ensures t != [] && (t[0] == x || (s != [] && t[0] == s[0]))
  {
    if s == [] || !Less(s[0], x) then [x] + s
    else
      assert s == [s[0]] + s[1..];
      [s[0]] + Insert(x, s[1..])
  }

  lemma SortedCons(x: string, s: seq<string>)
    requires Sorted(s) && (s == [] || !Less(s[0], x))
    ensures Sorted([x] + s)
  {
    var t := [x] + s;
    forall i | 0 < i < |t| ensures !Less(t[i], t[i - 1]) {
      if i > 1 {
        assert t[i] == s[i - 1] && t[i - 1] == s[i - 2];
      }
    }
  }

  lemma {:induction false} InsertSorted(x: string, s: seq<string>)
    requires Sorted(s)
    ensures Sorted(Insert(x, s))
  {
    if s == [] || !Less(s[0], x) {
      SortedCons(x, s);
    } else {
      InsertSorted(x, s[1..]);
      LessNotBoth(s[0], x);
      SortedCons(s[0], Insert(x, s[1..]));
    }
  }

  lemma LessNotBoth(a: string, b: string)
    requires Less(a, b)
    ensures !Less(b, a)
  {
    if Less(b, a) {
      LessTransitive(a, b, a);
      LessIrreflexive(a);
    }
  }

  /** The result of `tokens.sort()`: a stable sort is fixed by being sorted and a permutation. */
  function Sort(s: seq<string>): (t: seq<string>)
    ensures multiset(t) == multiset(s)
  {
    if s == [] then []
    else
      assert s == [s[0]] + s[1..];
      Insert(s[0], Sort(s[1..]))
  }

  lemma {:induction false} SortSorted(s: seq<string>)
    ensures Sorted(Sort(s))
  {
    if s != [] {
      SortSorted(s[1..]);
      InsertSorted(s[0], Sort(s[1..]));
    }
  }

  /** `tokens.dedup()`: drop each element equal to the one before it. */
  function Dedup(s: seq<string>): (t: seq<string>)
    ensures forall x :: x in t <==> x in s
    ensures s != [] ==> t != [] && t[0] == s[0]
  {
    if |s| <= 1 then s
    else
      assert s == [s[0]] + s[1..];
      if s[0] == s[1] then Dedup(s[1..]) else [s[0]] + Dedup(s[1..])
  }

  lemma {:induction false} DedupSorted(s: seq<string>)
    requires Sorted(s)
    ensures StrictlySorted(Dedup(s))
  {
    if |s| > 1 {
      var rest := s[1..];
      DedupSorted(rest);
      if s[0] != s[1] {
        LessTotal(s[0], s[1]);
        var t := Dedup(rest);
        forall j | 0 <= j < |t| ensures Less(s[0], t[j]) {
          if j > 0 {
            LessTransitive(s[0], t[0], t[j]);
          }
        }
      }
    }
  }

  /** A set has only one strictly sorted listing. */
  lemma {:induction false} StrictlySortedUnique(a: seq<string>, b: seq<string>)
    requires StrictlySorted(a) && StrictlySorted(b)
    requires forall x :: x in a <==> x in b
    ensures a == b
  {
    if a != [] {
      assert a[0] in b;
    }
    if b != [] {
      assert b[0] in a;
    }
    if a != [] {
      var i :| 0 <= i < |b| && b[i] == a[0];
      var j :| 0 <= j < |a| && a[j] == b[0];
      if i > 0 && j > 0 {
        LessNotBoth(b[0], b[i]);
      }
      assert a[0] == b[0] by {
        if i > 0 && j == 0 { LessIrreflexive(b[0]); }
        if j > 0 && i == 0 { LessIrreflexive(a[0]); }
      }
      TailMembers(a);
      TailMembers(b);
      StrictlySortedUnique(a[1..], b[1..]);
      assert a == [a[0]] + a[1..] && b == [b[0]] + b[1..];
    }
  }

  lemma TailMembers(a: seq<string>)
    requires a != [] && StrictlySorted(a)
    ensures forall x :: x in a[1..] <==> x in a && x != a[0]
  {
    LessIrreflexive(a[0]);
    assert a == [a[0]] + a[1..];
    forall x | x in a[1..] ensures x != a[0] {
      var i :| 1 <= i < |a| && a[i] == x;
    }
  }

  // ---------- Accept-Encoding ----------

  /** One list element with its parameters dropped, trimmed and lower-cased; "" when nothing is left. */
  function Coding(part: string): string {
    Lower(Trim(Split(part, ';')[0]))
  }

  /** The codings of a header value in order, empty elements skipped. */
  function Codings(parts: seq<string>): (codings: seq<string>) {
    if parts == [] then []
    else (if Coding(parts[0]) == "" then [] else [Coding(parts[0])]) + Codings(parts[1..])
  }

  function HeaderCodings(acceptEncoding: Option<string>): seq<string> {
    Codings(Split(if acceptEncoding.Some? then acceptEncoding.value else "", ','))
  }

  /** The reference reading of the header: which codings it names. */
  ghost function CodingSet(acceptEncoding: Option<string>): set<string> {
    set c | c in HeaderCodings(acceptEncoding)
  }

  function Canonical(acceptEncoding: Option<string>): string {
    Join(Dedup(Sort(HeaderCodings(acceptEncoding))), ',')
  }

  /** What every coding in a list looks like. */
  predicate CodingShape(c: string) {
    c != "" && ',' !in c && ';' !in c && Trimmed(c) && IsLower(c)
  }

  lemma CodingHasShape(part: string)
    requires ',' !in part
    ensures Coding(part) == "" || CodingShape(Coding(part))
  {
    var head := Split(part, ';')[0];
    SplitHeadWithin(part, ';');
    var trimmed := Trim(head);
    TrimFacts(head);
    var c := Coding(part);
    assert forall i | 0 <= i < |c| :: trimmed[i] in head;
    assert forall i | 0 <= i < |c| :: c[i] == LowerChar(trimmed[i]) && c[i] != ',' && c[i] != ';';
  }

  lemma {:induction false} SplitHeadWithin(s: string, sep: char)
    ensures forall c | c in Split(s, sep)[0] :: c in s && c != sep
  {
    if s != "" {
      SplitHeadWithin(s[1..], sep);
    }
  }

  lemma {:induction false} CodingsHaveShape(parts: seq<string>)
    requires forall p | p in parts :: ',' !in p
    ensures forall c | c in Codings(parts) :: CodingShape(c)
  {
    if parts != [] {
      CodingHasShape(parts[0]);
      CodingsHaveShape(parts[1..]);
    }
  }

  lemma CodingOfShape(c: string)
    requires CodingShape(c)
    ensures Coding(c) == c
  {
    SplitWithout(c, ';');
    TrimOfTrimmed(c);
    assert Lower(c) == c;
  }

  lemma {:induction false} CodingsOfShapes(codings: seq<string>)
    requires forall c | c in codings :: CodingShape(c)
    ensures Codings(codings) == codings
  {
    if codings != [] {
      CodingOfShape(codings[0]);
      CodingsOfShapes(codings[1..]);
    }
  }

  lemma CanonicalTokens(a: Option<string>)
    ensures StrictlySorted(Dedup(Sort(HeaderCodings(a))))
    ensures forall c :: c in Dedup(Sort(HeaderCodings(a))) <==> c in CodingSet(a)
    ensures forall c | c in CodingSet(a) :: CodingShape(c)
  {
    var codings := HeaderCodings(a);
    SortSorted(codings);
    DedupSorted(Sort(codings));
    assert forall c :: c in Sort(codings) <==> c in multiset(Sort(codings));
    assert forall c :: c in codings <==> c in multiset(codings);
    CodingsHaveShape(Split(if a.Some? then a.value else "", ','));
  }

  lemma HeaderCodingsOfJoin(tokens: seq<string>)
    requires forall c | c in tokens :: CodingShape(c)
    ensures HeaderCodings(Some(Join(tokens, ','))) == tokens
  {
    if tokens == [] {
      assert Coding("") == "";
      assert Codings([""]) == [];
    } else {
      SplitOfJoin(tokens, ',');
      CodingsOfShapes(tokens);
    }
  }

  /**
   Two header values are keyed alike exactly when they name the same set of codings: order, case,
   duplicates, white space, empty elements and parameters (so also quality values) do not matter,
   and nothing else is forgotten.
   */
  lemma CanonicalIffSameCodings(a: Option<string>, b: Option<string>)
    ensures Canonical(a) == Canonical(b) <==> CodingSet(a) == CodingSet(b)
  {
    hide Dedup;
    hide Sort;
    hide HeaderCodings;
    hide Join;
    hide StrictlySorted;
    hide CodingShape;
    var s, t := Dedup(Sort(HeaderCodings(a))), Dedup(Sort(HeaderCodings(b)));
    CanonicalTokens(a);
    CanonicalTokens(b);
    if CodingSet(a) == CodingSet(b) {
      StrictlySortedUnique(s, t);
    }
    if Canonical(a) == Canonical(b) {
      HeaderCodingsOfJoin(s);
      HeaderCodingsOfJoin(t);
      assert s == t;
      assert forall c :: c in CodingSet(a) <==> c in CodingSet(b);
    }
  }

  lemma CanonicalIdempotent(a: Option<string>)
    ensures CodingSet(Some(Canonical(a))) == CodingSet(a)
    ensures Canonical(Some(Canonical(a))) == Canonical(a)
  {
    CanonicalTokens(a);
    HeaderCodingsOfJoin(Dedup(Sort(HeaderCodings(a))));
    CanonicalIffSameCodings(Some(Canonical(a)), a);
  }

  // ---------- The key ----------

  const UNIT_SEPARATOR: char := '\U{1F}'

  function Key(host: string, pathAndQuery: string, acceptEncoding: Option<string>): string {
    host + pathAndQuery + [UNIT_SEPARATOR] + Canonical(acceptEncoding)
  }

  lemma FirstSeparator(a: string, b: string, x: string, y: string, sep: char)
    requires sep !in a && sep !in x
    requires a + [sep] + b == x + [sep] + y
    ensures a == x && b == y
  {
    var s := a + [sep] + b;
    assert forall i | 0 <= i < |a| :: s[i] == a[i] && a[i] != sep;
    assert forall i | 0 <= i < |x| :: s[i] == x[i] && x[i] != sep;
    assert s[|a|] == sep && s[|x|] == sep;
    assert a == s[..|a|] && x == s[..|x|];
    assert b == s[|a| + 1..] && y == s[|x| + 1..];
  }

  /** What any request gives: neither a header value nor a request target can hold the separator. */
  predicate Separated(host: string, pathAndQuery: string) {
    UNIT_SEPARATOR !in host && UNIT_SEPARATOR !in pathAndQuery
  }

  /**
   The exact condition for any hosts and targets: requests share a cache slot if and only if host and
   target agree where they are run together, and the sets of codings agree.
   */
  lemma SlotsExactly(h1: string, p1: string, a1: Option<string>, h2: string, p2: string, a2: Option<string>)
    requires Separated(h1, p1) && Separated(h2, p2)
    ensures Key(h1, p1, a1) == Key(h2, p2, a2) <==> h1 + p1 == h2 + p2 && CodingSet(a1) == CodingSet(a2)
  {
    CanonicalIffSameCodings(a1, a2);
    hide Canonical;
    hide CodingSet;
    if Key(h1, p1, a1) == Key(h2, p2, a2) {
      FirstSeparator(h1 + p1, Canonical(a1), h2 + p2, Canonical(a2), UNIT_SEPARATOR);
    }
  }

  /** A target with a path, such as all but the oddest requests have. */
  predicate Rooted(pathAndQuery: string) {
    pathAndQuery != "" && pathAndQuery[0] == '/'
  }

  /** For hosts without a slash: host, path and query, and set of codings all agree. */
  lemma KeyIdentifiesRequest(h1: string, p1: string, a1: Option<string>, h2: string, p2: string, a2: Option<string>)
    requires Separated(h1, p1) && Separated(h2, p2) && Rooted(p1) && Rooted(p2)
    requires '/' !in h1 && '/' !in h2
    ensures Key(h1, p1, a1) == Key(h2, p2, a2) <==> h1 == h2 && p1 == p2 && CodingSet(a1) == CodingSet(a2)
  {
    hide Key;
    hide CodingSet;
    SlotsExactly(h1, p1, a1, h2, p2, a2);
    if h1 + p1 == h2 + p2 {
      var t1, t2 := p1[1..], p2[1..];
      assert p1 == ['/'] + t1 && p2 == ['/'] + t2;
      assert h1 + ['/'] + t1 == h1 + p1 && h2 + ['/'] + t2 == h2 + p2;
      FirstSeparator(h1, t1, h2, t2, '/');
    }
  }

  /** The host header is cut at a colon only, so a host may hold a slash: then two different requests share a slot. */
  lemma SlashHostSharesSlot(host: string, rest: string, pathAndQuery: string, a: Option<string>)
    requires Rooted(pathAndQuery)
    ensures var target := "/" + rest + pathAndQuery;
            Rooted(target) && host + "/" + rest != host && Key(host + "/" + rest, pathAndQuery, a) == Key(host, target, a)
  {
    assert host + "/" + rest + pathAndQuery == host + ("/" + rest + pathAndQuery);
  }

  /** One host goes on with a slash where the other ends. */
  predicate Continues(h1: string, h2: string) {
    h1 + "/" <= h2
  }

  ghost predicate Confused(h1: string, h2: string, a: Option<string>) {
    exists p1, p2 | Rooted(p1) && Rooted(p2) && Separated(h1, p1) && Separated(h2, p2) :: Key(h1, p1, a) == Key(h2, p2, a)
  }

  /** Which hosts can share a slot: exactly those of which one is the other, a slash, and anything. */
  lemma ConfusedExactly(h1: string, h2: string, a: Option<string>)
    requires h1 != h2 && UNIT_SEPARATOR !in h1 && UNIT_SEPARATOR !in h2
    ensures Confused(h1, h2, a) <==> Continues(h1, h2) || Continues(h2, h1)
  {
    hide Key;
    hide CodingSet;
    if p1, p2 :| Rooted(p1) && Rooted(p2) && Separated(h1, p1) && Separated(h2, p2) && Key(h1, p1, a) == Key(h2, p2, a) {
      SlotsExactly(h1, p1, a, h2, p2, a);
      Prefixes(h1, p1, h2, p2);
    }
    if Continues(h1, h2) {
      var rest := h2[|h1| + 1..];
      assert h2 == h1 + "/" + rest;
      SlashHostSharesSlot(h1, rest, "/", a);
      assert Key(h1, "/" + rest + "/", a) == Key(h2, "/", a);
    }
    if Continues(h2, h1) {
      var rest := h1[|h2| + 1..];
      assert h1 == h2 + "/" + rest;
      SlashHostSharesSlot(h2, rest, "/", a);
      assert Key(h1, "/", a) == Key(h2, "/" + rest + "/", a);
    }
  }

  lemma Prefixes(h1: string, p1: string, h2: string, p2: string)
    requires h1 != h2 && Rooted(p1) && Rooted(p2) && h1 + p1 == h2 + p2
    ensures Continues(h1, h2) || Continues(h2, h1)
  {
    var s := h1 + p1;
    assert s[|h1|] == p1[0] && s[|h2|] == p2[0] && h1 == s[..|h1|] && h2 == s[..|h2|];
    if |h1| < |h2| {
      assert h2[|h1|] == '/' && h2[..|h1|] == h1;
    } else {
      assert |h1| != |h2| && h1[|h2|] == '/' && h1[..|h2|] == h2;
    }
  }

  /** Parameters are dropped, so a refused coding (`gzip;q=0`) shares the slot of an accepted one. */
  lemma ParametersDropped(host: string, pathAndQuery: string, coding: string, parameters: string)
    requires ',' !in coding && ',' !in parameters
    ensures Key(host, pathAndQuery, Some(coding + [';'] + parameters)) == Key(host, pathAndQuery, Some(coding))
  {
    var full := coding + [';'] + parameters;
    SplitWithout(full, ',');
    SplitWithout(coding, ',');
    SplitConcat(coding, parameters, ';');
    assert Coding(full) == Coding(coding);
    OneCoding(full);
    OneCoding(coding);
  }

  lemma OneCoding(part: string)
    ensures Codings([part]) == if Coding(part) == "" then [] else [Coding(part)]
  {
    assert Codings([part][1..]) == [];
  }

  /** `normalize_accept_encoding`, with its local vector of tokens. */
  method NormalizeAcceptEncoding(acceptEncoding: Option<string>) returns (r: string)
    ensures r == Canonical(acceptEncoding)
  {
    hide Split;
    hide Trim;
    hide Sort;
    hide Dedup;
    hide Join;
    var value := if acceptEncoding.Some? then acceptEncoding.value else "";
    var parts := Split(value, ',');
    var tokens: seq<string> := [];
    for i := 0 to |parts|
      invariant tokens + Codings(parts[i..]) == Codings(parts)
    {
      var token := Lower(Trim(Split(parts[i], ';')[0]));
      assert parts[i..][1..] == parts[i + 1..];
      ghost var rest := Codings(parts[i + 1..]);
      assert token == Coding(parts[i]);
      assert Codings(parts[i..]) == (if token == "" then [] else [token]) + rest;
      if token != "" {
        assert tokens + ([token] + rest) == tokens + [token] + rest;
        tokens := tokens + [token];
      } else {
        assert [] + rest == rest;
      }
    }
    assert tokens == HeaderCodings(acceptEncoding);
    tokens := Sort(tokens);
    tokens := Dedup(tokens);
    r := Join(tokens, ',');
  }
}
