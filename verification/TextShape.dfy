/**
 The shape of a text, read straight off its characters: white space around a word, a word in either case, a
 word before a separator. Trimming, lower-casing and splitting are proved to find exactly that.
 */
module TextShape {
  import opened Text

  // ---------- White space and case ----------

  predicate BlankChar(c: char) {
    c == ' ' || '\t' <= c <= '\r'
  }

  predicate Blank(s: string) {
    forall c | c in s :: BlankChar(c)
  }

  /** No white space at either end. */
  predicate Bare(s: string) {
    s != "" ==> !BlankChar(s[0]) && !BlankChar(s[|s| - 1])
  }

  ghost predicate Padded(text: string, core: string) {
    exists pre, post :: Blank(pre) && Blank(post) && text == pre + core + post
  }

  /** The same letters, each of them in either case. */
  predicate Spells(word: string, lower: string) {
    && |word| == |lower|
    && forall i | 0 <= i < |word| ::
         word[i] == lower[i] || ('a' <= lower[i] <= 'z' && word[i] as int + 32 == lower[i] as int)
  }

  lemma BlankIsSpace(c: char)
    ensures IsSpace(c) <==> BlankChar(c)
  {
  }

  lemma BareIsTrimmed(s: string)
    ensures Trimmed(s) <==> Bare(s)
  {
  }

  lemma BlankConcat(a: string, b: string)
    ensures Blank(a + b) <==> Blank(a) && Blank(b)
  {
    assert forall c | c in a :: c in a + b;
    assert forall c | c in b :: c in a + b;
  }

  lemma {:induction false} TrimStartOf(pre: string, s: string)
    requires Blank(pre) && (s != "" ==> !BlankChar(s[0]))
    ensures TrimStart(pre + s) == s
  {
    if pre == "" {
      assert pre + s == s;
    } else {
      assert pre[0] in pre && (pre + s)[1..] == pre[1..] + s;
      TrimStartOf(pre[1..], s);
    }
  }

  lemma {:induction false} TrimEndOf(s: string, post: string)
    requires Blank(post) && (s != "" ==> !BlankChar(s[|s| - 1]))
    ensures TrimEnd(s + post) == s
  {
    if post == "" {
      assert s + post == s;
    } else {
      var n := |post| - 1;
      assert post[n] in post && (s + post)[..|s + post| - 1] == s + post[..n];
      TrimEndOf(s, post[..n]);
    }
  }

  lemma TrimOfPadded(pre: string, core: string, post: string)
    requires Blank(pre) && Blank(post) && Bare(core)
    ensures Trim(pre + core + post) == core
  {
    if core == "" {
      BlankConcat(pre, post);
      assert pre + core + post == (pre + post) + "";
      TrimStartOf(pre + post, "");
    } else {
      assert pre + core + post == pre + (core + post);
      TrimStartOf(pre, core + post);
      TrimEndOf(core, post);
    }
  }

  lemma {:induction false} TrimStartPads(s: string)
    ensures |TrimStart(s)| <= |s| && Blank(s[..|s| - |TrimStart(s)|]) && s == s[..|s| - |TrimStart(s)|] + TrimStart(s)
  {
    if s != "" && IsSpace(s[0]) {
      TrimStartPads(s[1..]);
      var n := |s| - |TrimStart(s)|;
      assert s[..n] == [s[0]] + s[1..][..n - 1];
    }
  }

  lemma {:induction false} TrimEndPads(s: string)
    ensures |TrimEnd(s)| <= |s| && Blank(s[|TrimEnd(s)|..]) && s == TrimEnd(s) + s[|TrimEnd(s)|..]
  {
    if s != "" && IsSpace(s[|s| - 1]) {
      TrimEndPads(s[..|s| - 1]);
      var n := |TrimEnd(s)|;
      assert s[n..] == s[..|s| - 1][n..] + [s[|s| - 1]];
    }
  }

  /** What trimming takes away. */
  lemma TrimPads(s: string) returns (pre: string, post: string)
    ensures Blank(pre) && Blank(post) && s == pre + Trim(s) + post && Bare(Trim(s))
  {
    var t := TrimStart(s);
    TrimStartPads(s);
    TrimEndPads(t);
    TrimFacts(s);
    BareIsTrimmed(Trim(s));
    hide TrimStart;
    hide TrimEnd;
    hide Blank;
    hide Bare;
    pre, post := s[..|s| - |t|], t[|TrimEnd(t)|..];
  }

  /** Trimming finds the one text without outer white space that this one is a padding of. */
  lemma TrimExactly(s: string, t: string)
    ensures Trim(s) == t <==> Bare(t) && Padded(s, t)
  {
    var pre, post := TrimPads(s);
    hide Trim;
    if Bare(t) && Padded(s, t) {
      var a, b :| Blank(a) && Blank(b) && s == a + t + b;
      TrimOfPadded(a, t, b);
    }
  }

  lemma LowerExactly(word: string, lower: string)
    requires IsLower(lower)
    ensures Lower(word) == lower <==> Spells(word, lower)
  {
    if Spells(word, lower) {
      forall i | 0 <= i < |word| ensures LowerChar(word[i]) == lower[i] {
      }
    }
    if Lower(word) == lower {
      forall i | 0 <= i < |word| ensures LowerChar(word[i]) == lower[i] {
        assert Lower(word)[i] == lower[i];
      }
    }
  }

  lemma EqIgnoreCaseExactly(word: string, lower: string)
    requires IsLower(lower)
    ensures EqIgnoreAsciiCase(word, lower) <==> Spells(word, lower)
  {
    assert Lower(lower) == lower;
    LowerExactly(word, lower);
  }

  // ---------- Lists ----------

  lemma BlankHas(s: string, sep: char)
    requires Blank(s) && !BlankChar(sep)
    ensures sep !in s
  {
  }

  lemma {:induction false} SplitAfterBlank(pre: string, s: string, sep: char)
    requires sep !in pre
    ensures Split(pre + s, sep) == [pre + Split(s, sep)[0]] + Split(s, sep)[1..]
  {
    if pre == "" {
      var parts := Split(s, sep);
      assert pre + s == s && pre + parts[0] == parts[0] && [parts[0]] + parts[1..] == parts;
    } else {
      assert (pre + s)[1..] == pre[1..] + s && (pre + s)[0] == pre[0];
      SplitAfterBlank(pre[1..], s, sep);
      var first := Split(s, sep)[0];
      assert pre[0] != sep && [pre[0]] + (pre[1..] + first) == pre + first;
      hide Split;
    }
  }

  lemma SplitCons(c: char, s: string, sep: char)
    ensures Split([c] + s, sep)
         == if c == sep then [""] + Split(s, sep) else [[c] + Split(s, sep)[0]] + Split(s, sep)[1..]
  {
    assert ([c] + s)[1..] == s;
  }

  lemma {:induction false} SplitBeforeBlank(s: string, post: string, sep: char)
    requires sep !in post
    ensures var parts := Split(s, sep); var last := |parts| - 1;
            Split(s + post, sep) == parts[..last] + [parts[last] + post]
  {
    if s == "" {
      assert s + post == post;
      SplitWithout(post, sep);
    } else {
      var c, tail := s[0], s[1..];
      assert s == [c] + tail && s + post == [c] + (tail + post);
      SplitCons(c, tail, sep);
      SplitCons(c, tail + post, sep);
      SplitBeforeBlank(tail, post, sep);
      hide Split;
      var rest := Split(tail, sep);
      assert [c] + (rest[0] + post) == [c] + rest[0] + post;
    }
  }

  /** Trimming a list trims, of its elements, the outer ends of the first and the last. */
  lemma TrimmedList(s: string, sep: char)
    requires !BlankChar(sep)
    ensures |Split(Trim(s), sep)| == |Split(s, sep)|
    ensures forall i | 0 <= i < |Split(s, sep)| :: Trim(Split(Trim(s), sep)[i]) == Trim(Split(s, sep)[i])
  {
    var t := Trim(s);
    var pre, post := TrimPads(s);
    BlankHas(pre, sep);
    BlankHas(post, sep);
    hide Split;
    hide Trim;
    hide Blank;
    var parts := Split(t, sep);
    SplitAfterBlank(pre, t, sep);
    SplitBeforeBlank(pre + t, post, sep);
    forall i | 0 <= i < |Split(s, sep)| ensures Trim(Split(s, sep)[i]) == Trim(parts[i]) {
      var before, after := if i == 0 then pre else "", if i == |parts| - 1 then post else "";
      assert Blank("") by { NothingIsBlank(); }
      assert Split(s, sep)[i] == before + parts[i] + after;
      TrimOfMorePadded(before, parts[i], after);
    }
  }

  lemma NothingIsBlank()
    ensures Blank("")
  {
  }

  lemma TrimOfMorePadded(pre: string, s: string, post: string)
    requires Blank(pre) && Blank(post)
    ensures Trim(pre + s + post) == Trim(s)
  {
    var a, b := TrimPads(s);
    hide Trim;
    BlankConcat(pre, a);
    BlankConcat(b, post);
    assert pre + s + post == (pre + a) + Trim(s) + (b + post);
    TrimOfPadded(pre + a, Trim(s), b + post);
  }

  // ---------- Words before a separator ----------

  /** Nothing, or something that begins with the separator. */
  predicate Cut(rest: string, sep: char) {
    rest == "" || rest[0] == sep
  }

  /** White space, the word, white space, and then nothing or the separator and anything. */
  ghost predicate Headed(part: string, word: string, sep: char) {
    exists pre, mid, rest ::
      Blank(pre) && Blank(mid) && Cut(rest, sep) && part == pre + word + mid + rest
  }

  lemma SplitHead(head: string, rest: string, sep: char)
    requires sep !in head && Cut(rest, sep)
    ensures Split(head + rest, sep)[0] == head
  {
    if rest == "" {
      assert head + rest == head;
      SplitWithout(head, sep);
    } else {
      assert head + rest == head + [sep] + rest[1..];
      SplitConcat(head, rest[1..], sep);
      SplitWithout(head, sep);
    }
  }

  lemma {:induction false} SplitHeadTail(s: string, sep: char)
    ensures var head := Split(s, sep)[0];
            head <= s && sep !in head && Cut(s[|head|..], sep)
  {
    if s != "" && s[0] != sep {
      SplitHeadTail(s[1..], sep);
      var head := Split(s[1..], sep)[0];
      assert Split(s, sep)[0] == [s[0]] + head;
      assert s[1 + |head|..] == s[1..][|head|..];
    }
  }

  /** Cutting at the separator and trimming finds the one such word. */
  lemma HeadExactly(part: string, word: string, sep: char)
    requires !BlankChar(sep) && Bare(word) && sep !in word
    ensures Trim(Split(part, sep)[0]) == word <==> Headed(part, word, sep)
  {
    SplitHeadTail(part, sep);
    var head := Split(part, sep)[0];
    var tail := part[|head|..];
    var pre, post := TrimPads(head);
    hide Trim;
    assert part == head + tail;
    if Headed(part, word, sep) {
      var a, b, rest :| Blank(a) && Blank(b) && Cut(rest, sep) && part == a + word + b + rest;
      BlankHas(a, sep);
      BlankHas(b, sep);
      SplitHead(a + word + b, rest, sep);
      TrimOfPadded(a, word, b);
    }
  }
}
