/** The site files that `zaphyl site` writes, and reads back to enable or disable a site. */
module SiteFile {
  import opened Base

  datatype Kind = Static | Php | App
  datatype Tls = Auto | Off

  datatype Site = Site(
    domain: string, root: string, kind: Kind, tls: Tls,
    app: Option<string>, phpFpm: Option<string>, enabled: bool)

  // ---------- Escaping ----------

  /** `s.replace(c, by)` for one character. */
  function Replace(s: string, c: char, to: string): string {
    if s == "" then "" else (if s[0] == c then to else [s[0]]) + Replace(s[1..], c, to)
  }

  /** Two passes: backslashes first, then quotes. */
  function TomlEscape(s: string): string {
    Replace(Replace(s, '\\', "\\\\"), '"', "\\\"")
  }

  /** The reference: every character on its own. */
  function EscapeEach(s: string): string {
    if s == "" then ""
    else (if s[0] == '\\' then "\\\\" else if s[0] == '"' then "\\\"" else [s[0]]) + EscapeEach(s[1..])
  }

  lemma {:induction false} ReplaceConcat(a: string, b: string, c: char, to: string)
    ensures Replace(a + b, c, to) == Replace(a, c, to) + Replace(b, c, to)
  {
    if a == "" {
      assert a + b == b;
    } else {
      assert (a + b)[1..] == a[1..] + b;
      ReplaceConcat(a[1..], b, c, to);
    }
  }

  lemma ReplaceOne(x: char, c: char, to: string)
    ensures Replace([x], c, to) == if x == c then to else [x]
  {
    assert Replace([x][1..], c, to) == "";
  }

  /** The second pass never touches what the first one produced, so two passes are one. */
  lemma {:induction false} TwoPassesAreOne(s: string)
    ensures TomlEscape(s) == EscapeEach(s)
  {
    if s != "" {
      var head := if s[0] == '\\' then "\\\\" else [s[0]];
      var tail := Replace(s[1..], '\\', "\\\\");
      TwoPassesAreOne(s[1..]);
      ReplaceConcat(head, tail, '"', "\\\"");
      if s[0] == '\\' {
        assert head == ['\\'] + ['\\'];
        ReplaceConcat(['\\'], ['\\'], '"', "\\\"");
        ReplaceOne('\\', '"', "\\\"");
      } else {
        ReplaceOne(s[0], '"', "\\\"");
      }
    }
  }

  // ---------- Basic strings of TOML v1.0.0 (section "String") ----------

  /** Control characters other than tab must be escaped. */
  predicate MustEscape(c: char) {
    (c < ' ' && c != '\t') || c == '\U{7F}'
  }

  predicate Printable(s: string) {
    forall i | 0 <= i < |s| :: !MustEscape(s[i])
  }

  /** The character a short escape stands for. */
  function Unescape(c: char): Option<char> {
    match c
    case '"' => Some('"')
    case '\\' => Some('\\')
    case 'b' => Some('\U{08}')
    case 't' => Some('\t')
    case 'n' => Some('\n')
    case 'f' => Some('\U{0C}')
    case 'r' => Some('\r')
    case _ => None
  }

  datatype Read<+T> = Read(value: T, rest: string)

  function Cons(c: char, r: Option<Read<string>>): Option<Read<string>> {
    if r.Some? then Some(Read([c] + r.value.value, r.value.rest)) else None
  }

  /** Reads up to the closing quote of a basic string. */
  function ReadString(s: string): (r: Option<Read<string>>)
    ensures r.Some? ==> |r.value.rest| < |s|
  {
    if s == "" then None
    else if s[0] == '"' then Some(Read("", s[1..]))
    else if s[0] == '\\' then
      if |s| == 1 || Unescape(s[1]).None? then None else Cons(Unescape(s[1]).value, ReadString(s[2..]))
    else if MustEscape(s[0]) then None
    else Cons(s[0], ReadString(s[1..]))
  }

  /** A written string reads back as itself if it is printable, and not at all otherwise. */
  lemma {:induction false} ReadStringOfEscaped(s: string, tail: string)
    ensures ReadString(EscapeEach(s) + ['"'] + tail) == if Printable(s) then Some(Read(s, tail)) else None
  {
    var text := EscapeEach(s) + ['"'] + tail;
    if s == "" {
      assert text[1..] == tail;
    } else {
      var rest := EscapeEach(s[1..]) + ['"'] + tail;
      ReadStringOfEscaped(s[1..], tail);
      assert s == [s[0]] + s[1..];
      assert Printable(s) <==> !MustEscape(s[0]) && Printable(s[1..]);
      if s[0] == '\\' || s[0] == '"' {
        assert text[0] == '\\' && text[1] == s[0] && text[2..] == rest;
      } else {
        assert text[0] == s[0] && text[1..] == rest;
      }
    }
  }

  // ---------- Lines ----------

  datatype Value = Str(s: string) | Bool(b: bool)
  datatype Assign = Assign(name: string, value: Value)

  predicate IsKeyChar(c: char) {
    'a' <= c <= 'z' || 'A' <= c <= 'Z' || '0' <= c <= '9' || c == '_' || c == '-'
  }

  function ReadKey(s: string): (r: Read<string>)
    ensures |r.value| + |r.rest| == |s|
  {
    if s != "" && IsKeyChar(s[0]) then
      var r := ReadKey(s[1..]);
      Read([s[0]] + r.value, r.rest)
    else Read("", s)
  }

  function SkipSpaces(s: string): (t: string)
    ensures |t| <= |s|
  {
    if s != "" && (s[0] == ' ' || s[0] == '\t') then SkipSpaces(s[1..]) else s
  }

  function ReadValue(s: string): (r: Option<Read<Value>>)
    ensures r.Some? ==> |r.value.rest| < |s|
  {
    if s != "" && s[0] == '"' then
      match ReadString(s[1..])
      case Some(r) => Some(Read(Str(r.value), r.rest))
      case None => None
    else if "true" <= s then Some(Read(Bool(true), s[4..]))
    else if "false" <= s then Some(Read(Bool(false), s[5..]))
    else None
  }

  /** The end of a line, or of the text. */
  function ReadEnd(s: string): (r: Option<string>)
    ensures r.Some? ==> |r.value| <= |s|
  {
    var s := SkipSpaces(s);
    if s == "" then Some("") else if s[0] == '\n' then Some(s[1..]) else None
  }

  /** One `name = value` line. */
  function ReadLine(s: string): (r: Option<Read<Assign>>)
    ensures r.Some? ==> |r.value.rest| < |s|
  {
    var key := ReadKey(s);
    var afterKey := SkipSpaces(key.rest);
    if key.value == "" || afterKey == "" || afterKey[0] != '=' then None
    else
      match ReadValue(SkipSpaces(afterKey[1..]))
      case None => None
      case Some(v) =>
        match ReadEnd(v.rest)
        case None => None
        case Some(rest) => Some(Read(Assign(key.value, v.value), rest))
  }

  function ReadLines(s: string): Option<seq<Assign>>
    decreases |s|
  {
    if s == "" then Some([])
    else
      match ReadLine(s)
      case None => None
      case Some(line) =>
        match ReadLines(line.rest)
        case None => None
        case Some(lines) => Some([line.value] + lines)
  }

  function WriteValue(v: Value): string {
    match v
    case Str(s) => ['"'] + TomlEscape(s) + ['"']
    case Bool(b) => if b then "true" else "false"
  }

  function WriteLine(a: Assign): string {
    a.name + " = " + WriteValue(a.value) + ['\n']
  }

  function WriteLines(lines: seq<Assign>): string {
    if lines == [] then "" else WriteLine(lines[0]) + WriteLines(lines[1..])
  }

  predicate GoodName(name: string) {
    name != "" && forall i | 0 <= i < |name| :: IsKeyChar(name[i])
  }

  predicate GoodValue(v: Value) {
    v.Str? ==> Printable(v.s)
  }

  lemma {:induction false} ReadKeyOfName(name: string, tail: string)
    requires forall i | 0 <= i < |name| :: IsKeyChar(name[i])
    requires tail != "" && !IsKeyChar(tail[0])
    ensures ReadKey(name + tail) == Read(name, tail)
  {
    if name == "" {
      assert name + tail == tail;
    } else {
      assert (name + tail)[1..] == name[1..] + tail;
      ReadKeyOfName(name[1..], tail);
      assert [name[0]] + name[1..] == name;
    }
  }

  lemma ReadValueOfWritten(v: Value, tail: string)
    ensures ReadValue(WriteValue(v) + tail) == if GoodValue(v) then Some(Read(v, tail)) else None
  {
    hide TomlEscape;
    hide EscapeEach;
    hide ReadString;
    hide Printable;
    var text := WriteValue(v) + tail;
    match v {
      case Str(s) =>
        TwoPassesAreOne(s);
        ReadStringOfEscaped(s, tail);
        assert text[1..] == EscapeEach(s) + ['"'] + tail;
      case Bool(b) =>
        if b {
          assert text[4..] == tail;
        } else {
          assert text[5..] == tail;
        }
    }
  }

  /** A line is read as its name and whatever its value reads as. */
  lemma ReadLineOfText(name: string, text: string, v: Option<Value>, tail: string)
    requires GoodName(name) && text != "" && text[0] != ' ' && text[0] != '\t'
    requires ReadValue(text + (['\n'] + tail)) == if v.Some? then Some(Read(v.value, ['\n'] + tail)) else None
    ensures ReadLine(name + " = " + text + ['\n'] + tail)
         == if v.Some? then Some(Read(Assign(name, v.value), tail)) else None
  {
    hide ReadValue;
    hide ReadKey;
    hide IsKeyChar;
    var value := text + (['\n'] + tail);
    var afterKey := " = " + value;
    var line := name + " = " + text + ['\n'] + tail;
    assert line == name + afterKey;
    SpaceIsNoKeyChar();
    ReadKeyOfName(name, afterKey);
    assert afterKey[1..] == "= " + value;
    assert ("= " + value)[1..] == " " + value;
    assert (" " + value)[1..] == value;
    assert value[0] == text[0];
    assert (['\n'] + tail)[1..] == tail;
    assert ReadKey(line) == Read(name, afterKey);
    assert SkipSpaces(afterKey) == "= " + value;
    assert SkipSpaces(" " + value) == value;
    assert ReadEnd(['\n'] + tail) == Some(tail);
  }

  lemma ReadLineOfWritten(a: Assign, tail: string)
    requires GoodName(a.name)
    ensures ReadLine(WriteLine(a) + tail) == if GoodValue(a.value) then Some(Read(a, tail)) else None
  {
    hide ReadValue;
    hide WriteValue;
    hide GoodValue;
    hide ReadLine;
    ValueStartsNoSpace(a.value);
    ReadValueOfWritten(a.value, ['\n'] + tail);
    ReadLineOfText(a.name, WriteValue(a.value), if GoodValue(a.value) then Some(a.value) else None, tail);
  }

  lemma SpaceIsNoKeyChar()
    ensures !IsKeyChar(' ')
  {
  }

  lemma ValueStartsNoSpace(v: Value)
    ensures WriteValue(v) != "" && WriteValue(v)[0] != ' ' && WriteValue(v)[0] != '\t'
  {
  }

  /** Written lines read back as themselves if every string is printable; otherwise nothing can be read. */
  lemma {:induction false} ReadLinesOfWritten(lines: seq<Assign>)
    requires forall i | 0 <= i < |lines| :: GoodName(lines[i].name)
    ensures ReadLines(WriteLines(lines))
         == if forall i | 0 <= i < |lines| :: GoodValue(lines[i].value) then Some(lines) else None
  {
    hide ReadLine;
    hide WriteLine;
    hide GoodName;
    hide GoodValue;
    if lines != [] {
      var a, rest := lines[0], lines[1..];
      ReadLinesOfWritten(rest);
      ReadLineOfWritten(a, WriteLines(rest));
      WriteLineNonempty(a);
      assert WriteLine(a) + WriteLines(rest) != "";
      assert lines == [a] + rest;
      if GoodValue(a.value) && forall i | 0 <= i < |rest| :: GoodValue(rest[i].value) {
        assert forall i | 0 <= i < |lines| :: GoodValue(lines[i].value);
      } else if GoodValue(a.value) {
        var i :| 0 <= i < |rest| && !GoodValue(rest[i].value);
        assert !GoodValue(lines[i + 1].value);
      } else {
        assert !GoodValue(lines[0].value);
      }
    }
  }

  lemma WriteLineNonempty(a: Assign)
    ensures WriteLine(a) != ""
  {
  }

  // ---------- Sites ----------

  function KindName(k: Kind): string {
    match k
    case Static => "static"
    case Php => "php"
    case App => "app"
  }

  function TlsName(t: Tls): string {
    if t == Off then "off" else "auto"
  }

  function Optional(name: string, value: Option<string>): seq<Assign> {
    if value.Some? then [Assign(name, Str(value.value))] else []
  }

  /** The fields of a site file, in the order they are written; `enabled` is appended separately. */
  function SiteLines(s: Site): seq<Assign> {
    [Assign("domain", Str(s.domain)), Assign("root", Str(s.root)),
     Assign("type", Str(KindName(s.kind))), Assign("tls", Str(TlsName(s.tls)))]
    + Optional("app", s.app) + Optional("php_fpm", s.phpFpm)
  }

  function EnabledLine(b: bool): Assign {
    Assign("enabled", Bool(b))
  }

  const FIELDS: set<string> := {"domain", "root", "type", "tls", "app", "php_fpm", "enabled"}

  function Lookup(lines: seq<Assign>, name: string): Option<Value> {
    if lines == [] then None
    else if lines[0].name == name then Some(lines[0].value)
    else Lookup(lines[1..], name)
  }

  predicate NoRepeats(lines: seq<Assign>) {
    lines == [] || (Lookup(lines[1..], lines[0].name).None? && NoRepeats(lines[1..]))
  }

  function KindOf(v: Option<Value>): Option<Kind> {
    if v == Some(Str("static")) then Some(Static)
    else if v == Some(Str("php")) then Some(Php)
    else if v == Some(Str("app")) then Some(App)
    else None
  }

  /** A site without a `tls` field gets a certificate automatically. */
  function TlsOf(v: Option<Value>): Option<Tls> {
    if v == None || v == Some(Str("auto")) then Some(Auto)
    else if v == Some(Str("off")) then Some(Off)
    else None
  }

  function TextOf(v: Option<Value>): Option<string> {
    if v.Some? && v.value.Str? then Some(v.value.s) else None
  }

  predicate NotBool(v: Option<Value>) {
    v.Some? ==> v.value.Str?
  }

  /** Unknown and repeated fields are errors, and so are missing required ones; a site is enabled by default. */
  function SiteOf(lines: seq<Assign>): Option<Site> {
    var domain, root, kind := Lookup(lines, "domain"), Lookup(lines, "root"), KindOf(Lookup(lines, "type"));
    var tls, app, phpFpm := TlsOf(Lookup(lines, "tls")), Lookup(lines, "app"), Lookup(lines, "php_fpm");
    var enabled := Lookup(lines, "enabled");
    if !NoRepeats(lines) || exists a | a in lines :: a.name !in FIELDS then None
    else if TextOf(domain).None? || TextOf(root).None? || kind.None? || tls.None? then None
    else if !NotBool(app) || !NotBool(phpFpm) || (enabled.Some? && enabled.value.Str?) then None
    else
      Some(Site(TextOf(domain).value, TextOf(root).value, kind.value, tls.value,
                TextOf(app), TextOf(phpFpm), enabled.Some? ==> enabled.value.b))
  }

  /** `SiteConfig::from_toml`, on files of plain assignments such as the program writes. */
  function ReadSite(text: string): Option<Site> {
    match ReadLines(text)
    case Some(lines) => SiteOf(lines)
    case None => None
  }

  /** `write_site_toml`. */
  function SiteText(s: Site): string {
    WriteLines(SiteLines(s))
  }

  predicate PrintableSite(s: Site) {
    && Printable(s.domain) && Printable(s.root)
    && (s.app.Some? ==> Printable(s.app.value))
    && (s.phpFpm.Some? ==> Printable(s.phpFpm.value))
  }

  lemma {:induction false} LookupConcat(a: seq<Assign>, b: seq<Assign>, name: string)
    ensures Lookup(a + b, name) == if Lookup(a, name).Some? then Lookup(a, name) else Lookup(b, name)
  {
    if a == [] {
      assert a + b == b;
    } else {
      assert (a + b)[1..] == a[1..] + b;
      LookupConcat(a[1..], b, name);
    }
  }

  lemma {:induction false} NoRepeatsConcat(a: seq<Assign>, b: seq<Assign>)
    requires NoRepeats(a) && NoRepeats(b) && forall x | x in a :: Lookup(b, x.name).None?
    ensures NoRepeats(a + b)
  {
    if a == [] {
      assert a + b == b;
    } else {
      assert (a + b)[1..] == a[1..] + b;
      LookupConcat(a[1..], b, a[0].name);
      NoRepeatsConcat(a[1..], b);
    }
  }

  lemma OneLine(a: Assign, name: string)
    ensures Lookup([a], name) == (if a.name == name then Some(a.value) else None) && NoRepeats([a])
  {
    assert [a][1..] == [];
  }

  /** The four required fields. */
  lemma RequiredLines(d: Value, r: Value, k: Value, t: Value)
    ensures var lines := [Assign("domain", d), Assign("root", r), Assign("type", k), Assign("tls", t)];
            && NoRepeats(lines)
            && forall name :: Lookup(lines, name)
                 == if name == "domain" then Some(d) else if name == "root" then Some(r)
                    else if name == "type" then Some(k) else if name == "tls" then Some(t) else None
  {
    var l4, l3 := [Assign("tls", t)], [Assign("type", k), Assign("tls", t)];
    var l2 := [Assign("root", r), Assign("type", k), Assign("tls", t)];
    var l1 := [Assign("domain", d), Assign("root", r), Assign("type", k), Assign("tls", t)];
    assert l1[1..] == l2 && l2[1..] == l3 && l3[1..] == l4 && l4[1..] == [];
    assert forall name :: Lookup(l4, name) == if name == "tls" then Some(t) else None;
    assert NoRepeats(l4);
    assert forall name :: Lookup(l3, name) == if name == "type" then Some(k) else Lookup(l4, name);
    assert NoRepeats(l3);
    assert forall name :: Lookup(l2, name) == if name == "root" then Some(r) else Lookup(l3, name);
    assert NoRepeats(l2);
    assert forall name :: Lookup(l1, name) == if name == "domain" then Some(d) else Lookup(l2, name);
  }

  /** The optional fields, with or without the `enabled` line. */
  lemma OptionalLines(s: Site, tail: seq<Assign>)
    requires tail == [] || tail == [EnabledLine(s.enabled)]
    ensures var lines := Optional("app", s.app) + Optional("php_fpm", s.phpFpm) + tail;
            && NoRepeats(lines)
            && forall name :: Lookup(lines, name)
                 == if name == "app" && s.app.Some? then Some(Str(s.app.value))
                    else if name == "php_fpm" && s.phpFpm.Some? then Some(Str(s.phpFpm.value))
                    else if name == "enabled" && tail != [] then Some(Bool(s.enabled)) else None
  {
    var a, p := Optional("app", s.app), Optional("php_fpm", s.phpFpm);
    OptionalLine("app", s.app);
    OptionalLine("php_fpm", s.phpFpm);
    forall n ensures Lookup(tail, n) == if n == "enabled" && tail != [] then Some(Bool(s.enabled)) else None {
      if tail != [] { OneLine(tail[0], n); }
    }
    if tail != [] { OneLine(tail[0], ""); }
    NoRepeatsConcat(a, p);
    forall x: Assign | x in a + p ensures Lookup(tail, x.name).None? {
      assert x.name == "app" || x.name == "php_fpm";
    }
    NoRepeatsConcat(a + p, tail);
    forall name ensures Lookup(a + p + tail, name)
      == if Lookup(a, name).Some? then Lookup(a, name)
         else if Lookup(p, name).Some? then Lookup(p, name) else Lookup(tail, name)
    {
      LookupConcat(a, p, name);
      LookupConcat(a + p, tail, name);
    }
  }

  lemma OptionalLine(field: string, value: Option<string>)
    ensures NoRepeats(Optional(field, value))
    ensures forall name :: Lookup(Optional(field, value), name)
              == if name == field && value.Some? then Some(Str(value.value)) else None
  {
    if value.Some? {
      OneLine(Assign(field, Str(value.value)), "");
      forall name ensures Lookup(Optional(field, value), name) == if name == field then Some(Str(value.value)) else None {
        OneLine(Assign(field, Str(value.value)), name);
      }
    }
  }

  function Fields(s: Site, tail: seq<Assign>, name: string): Option<Value> {
    if name == "domain" then Some(Str(s.domain))
    else if name == "root" then Some(Str(s.root))
    else if name == "type" then Some(Str(KindName(s.kind)))
    else if name == "tls" then Some(Str(TlsName(s.tls)))
    else if name == "app" && s.app.Some? then Some(Str(s.app.value))
    else if name == "php_fpm" && s.phpFpm.Some? then Some(Str(s.phpFpm.value))
    else if name == "enabled" && tail != [] then Some(Bool(s.enabled))
    else None
  }

  lemma SiteFields(s: Site, tail: seq<Assign>)
    requires tail == [] || tail == [EnabledLine(s.enabled)]
    ensures NoRepeats(SiteLines(s) + tail)
    ensures forall name :: Lookup(SiteLines(s) + tail, name) == Fields(s, tail, name)
    ensures forall a | a in SiteLines(s) + tail :: a.name in FIELDS
  {
    hide Lookup;
    hide NoRepeats;
    var required := [Assign("domain", Str(s.domain)), Assign("root", Str(s.root)),
                     Assign("type", Str(KindName(s.kind))), Assign("tls", Str(TlsName(s.tls)))];
    var optional := Optional("app", s.app) + Optional("php_fpm", s.phpFpm) + tail;
    assert SiteLines(s) + tail == required + optional;
    hide SiteLines;
    hide KindName;
    hide TlsName;
    RequiredLines(Str(s.domain), Str(s.root), Str(KindName(s.kind)), Str(TlsName(s.tls)));
    OptionalLines(s, tail);
    NoRepeatsConcat(required, optional);
    forall name ensures Lookup(required + optional, name) == Fields(s, tail, name) {
      LookupConcat(required, optional, name);
    }
  }

  /** The written fields give the site back. */
  lemma SiteOfLines(s: Site, tail: seq<Assign>)
    requires tail == [EnabledLine(s.enabled)] || (tail == [] && s.enabled)
    ensures SiteOf(SiteLines(s) + tail) == Some(s)
  {
    hide Lookup;
    hide NoRepeats;
    hide SiteLines;
    SiteFields(s, tail);
    KindAndTlsRoundTrip(s.kind, s.tls);
  }

  lemma KindAndTlsRoundTrip(k: Kind, t: Tls)
    ensures KindOf(Some(Str(KindName(k)))) == Some(k)
    ensures TlsOf(Some(Str(TlsName(t)))) == Some(t)
  {
  }

  lemma LinesHaveGoodNames(s: Site, tail: seq<Assign>)
    requires tail == [] || tail == [EnabledLine(s.enabled)]
    ensures forall i | 0 <= i < |SiteLines(s) + tail| :: GoodName((SiteLines(s) + tail)[i].name)
  {
    hide GoodName;
    hide SiteLines;
    FieldNamesAreGood();
    SiteFields(s, tail);
    var lines := SiteLines(s) + tail;
    forall i | 0 <= i < |lines| ensures GoodName(lines[i].name) {
      assert lines[i] in lines;
    }
  }

  lemma LinesArePrintable(s: Site, tail: seq<Assign>)
    requires tail == [] || tail == [EnabledLine(s.enabled)]
    ensures (forall i | 0 <= i < |SiteLines(s) + tail| :: GoodValue((SiteLines(s) + tail)[i].value)) <==> PrintableSite(s)
  {
    hide Printable;
    NamesArePrintable(s.kind, s.tls);
    hide KindName;
    hide TlsName;
    var lines := SiteLines(s) + tail;
    assert lines[0].value == Str(s.domain) && lines[1].value == Str(s.root);
    if s.app.Some? {
      assert lines[4].value == Str(s.app.value);
    }
    if s.phpFpm.Some? {
      assert lines[if s.app.Some? then 5 else 4].value == Str(s.phpFpm.value);
    }
  }

  lemma FieldNamesAreGood()
    ensures forall name | name in FIELDS :: GoodName(name)
  {
  }

  lemma NamesArePrintable(k: Kind, t: Tls)
    ensures Printable(KindName(k)) && Printable(TlsName(t))
  {
  }

  lemma {:induction false} WriteLinesConcat(a: seq<Assign>, b: seq<Assign>)
    ensures WriteLines(a + b) == WriteLines(a) + WriteLines(b)
  {
    if a == [] {
      assert a + b == b;
    } else {
      assert (a + b)[1..] == a[1..] + b;
      WriteLinesConcat(a[1..], b);
    }
  }

  // ---------- Main results ----------

  /** A new site file reads back as the site, enabled, exactly when its strings have no control characters. */
  lemma WriteRoundTrip(s: Site)
    requires s.enabled
    ensures ReadSite(SiteText(s)) == if PrintableSite(s) then Some(s) else None
  {
    hide SiteLines;
    hide ReadLines;
    hide WriteLines;
    hide SiteOf;
    assert SiteLines(s) + [] == SiteLines(s);
    LinesHaveGoodNames(s, []);
    LinesArePrintable(s, []);
    ReadLinesOfWritten(SiteLines(s));
    SiteOfLines(s, []);
  }

  /**
   All that is assumed of `SiteConfig::from_toml` on a file somebody edited by hand - comments, blank
   lines, tables, other string forms: nothing, but for the files the program writes itself.
   */
  ghost predicate ReadsWrittenForm(fromToml: string -> Option<Site>) {
    && (forall s :: fromToml(SiteText(s)) == ReadSite(SiteText(s)))
    && forall s, enabled :: fromToml(EnabledText(s, enabled)) == ReadSite(EnabledText(s, enabled))
  }

  function EnabledText(s: Site, enabled: bool): string {
    SiteText(s) + WriteLine(EnabledLine(enabled))
  }

  /** `run_site_set_enabled` on the text of a site file; nothing when the file cannot be read as a site. */
  function SetEnabledText(fromToml: string -> Option<Site>, text: string, enabled: bool): Option<string> {
    match fromToml(text)
    case Some(site) => Some(EnabledText(site, enabled))
    case None => None
  }

  /** What the rewritten file reads as: the site with only `enabled` changed, if it is printable. */
  lemma ReadEnabledText(site: Site, enabled: bool)
    ensures ReadSite(EnabledText(site, enabled))
         == if PrintableSite(site) then Some(site.(enabled := enabled)) else None
  {
    hide SiteLines;
    hide ReadLines;
    hide WriteLines;
    hide WriteLine;
    hide SiteOf;
    var s, tail := site.(enabled := enabled), [EnabledLine(enabled)];
    EnabledNotInLines(site, enabled);
    WriteLinesConcat(SiteLines(s), tail);
    OneWrittenLine(EnabledLine(enabled));
    LinesHaveGoodNames(s, tail);
    LinesArePrintable(s, tail);
    ReadLinesOfWritten(SiteLines(s) + tail);
    SiteOfLines(s, tail);
  }

  /**
   Enabling or disabling keeps every other field, exactly when no field needs a control character.
   The file may be any that reads as a site, whoever wrote it.
   */
  lemma SetEnabledRoundTrip(fromToml: string -> Option<Site>, text: string, enabled: bool)
    requires ReadsWrittenForm(fromToml) && fromToml(text).Some?
    ensures var site := fromToml(text).value;
            fromToml(SetEnabledText(fromToml, text, enabled).value)
              == if PrintableSite(site) then Some(site.(enabled := enabled)) else None
  {
    hide ReadSite;
    hide EnabledText;
    ReadEnabledText(fromToml(text).value, enabled);
  }

  /** A site file as somebody may write it: a newline in the domain, as an escape. */
  function EscapedNewlineText(s: Site): string {
    "domain = \"\\n\"\n" + WriteLines(SiteLines(s)[1..])
  }

  lemma ReadEscapedNewlineLine(tail: string)
    ensures ReadLine("domain = \"\\n\"\n" + tail) == Some(Read(Assign("domain", Str("\n")), tail))
  {
    var text, rest := "\"\\n\"", ['\n'] + tail;
    var value := text + rest;
    var inner, quote := value[1..], "\"" + rest;
    assert inner[0] == '\\' && inner[1] == 'n' && inner[2..] == quote && quote[1..] == rest;
    assert ReadString(quote) == Some(Read("", rest));
    assert ['\n'] + "" == "\n";
    assert ReadString(inner) == Some(Read("\n", rest));
    assert GoodName("domain") by { FieldNamesAreGood(); }
    hide ReadLine;
    hide ReadString;
    ReadLineOfText("domain", text, Some(Str("\n")), tail);
    assert "domain = \"\\n\"\n" + tail == "domain" + " = " + text + ['\n'] + tail;
  }

  /**
   Files for which enabling fails: give any printable site a domain that holds an escaped newline.
   The file reads as that site, and once rewritten, with either value, as nothing at all.
   */
  lemma EscapedNewlineIsLost(s: Site, enabled: bool)
    requires PrintableSite(s) && s.enabled
    ensures var text := EscapedNewlineText(s);
            && ReadSite(text) == Some(s.(domain := "\n"))
            && SetEnabledText(ReadSite, text, enabled).Some?
            && ReadSite(SetEnabledText(ReadSite, text, enabled).value) == None
  {
    var broken := s.(domain := "\n");
    var rest := SiteLines(s)[1..];
    assert SiteLines(broken) == [Assign("domain", Str("\n"))] + rest by { DomainIsFirst(s, "\n"); }
    assert !PrintableSite(broken) by { assert MustEscape(broken.domain[0]); }
    hide EnabledText;
    hide PrintableSite;
    ReadEnabledText(broken, enabled);
    ReadEscapedNewlineLine(WriteLines(rest));
    assert ReadLines(WriteLines(rest)) == Some(rest) by {
      assert SiteLines(s) + [] == SiteLines(s);
      LinesHaveGoodNames(s, []);
      LinesArePrintable(s, []);
      ReadLinesOfWritten(rest);
    }
    assert SiteLines(broken) + [] == SiteLines(broken);
    SiteOfLines(broken, []);
  }

  lemma DomainIsFirst(s: Site, domain: string)
    ensures SiteLines(s.(domain := domain)) == [Assign("domain", Str(domain))] + SiteLines(s)[1..]
  {
  }

  lemma EnabledNotInLines(s: Site, enabled: bool)
    ensures SiteLines(s.(enabled := enabled)) == SiteLines(s)
  {
  }

  lemma OneWrittenLine(a: Assign)
    ensures WriteLines([a]) == WriteLine(a)
  {
    assert [a][1..] == [];
    assert WriteLine(a) + "" == WriteLine(a);
  }

  /** A sequence of enable and disable commands; one that fails leaves the file alone. */
  function AfterCommands(fromToml: string -> Option<Site>, text: string, commands: seq<bool>): string {
    if commands == [] then text
    else
      var before := AfterCommands(fromToml, text, commands[..|commands| - 1]);
      match SetEnabledText(fromToml, before, commands[|commands| - 1])
      case Some(t) => t
      case None => before
  }

  /** Any commands on a printable site keep every other field and leave `enabled` as the last one set it. */
  lemma {:induction false} CommandsKeepFields(fromToml: string -> Option<Site>, text: string, commands: seq<bool>)
    requires ReadsWrittenForm(fromToml) && fromToml(text).Some? && PrintableSite(fromToml(text).value)
    ensures fromToml(AfterCommands(fromToml, text, commands))
         == Some(if commands == [] then fromToml(text).value
                 else fromToml(text).value.(enabled := commands[|commands| - 1]))
  {
    hide ReadsWrittenForm;
    hide EnabledText;
    if commands != [] {
      var before := AfterCommands(fromToml, text, commands[..|commands| - 1]);
      CommandsKeepFields(fromToml, text, commands[..|commands| - 1]);
      SetEnabledRoundTrip(fromToml, before, commands[|commands| - 1]);
    }
  }

  // ---------- The code that writes ----------

  function QuotedLine(name: string, escaped: string): string {
    name + " = \"" + escaped + "\"\n"
  }

  method WriteSiteToml(
    domain: string, root: string, kind: Kind, tlsOff: bool, app: Option<string>, phpFpm: Option<string>)
    returns (out: string)
    ensures out == SiteText(Site(domain, root, kind, if tlsOff then Off else Auto, app, phpFpm, true))
  {
    hide TomlEscape;
    hide WriteLines;
    hide QuotedLine;
    var kindStr := match kind case Static => "static" case Php => "php" case App => "app";
    var tlsStr := if tlsOff then "off" else "auto";
    ghost var lines: seq<Assign> := [];
    out := "";
    assert WriteLines([]) == "" by { NoLines(); }
    AppendLine(lines, "domain", domain);
    out, lines := out + QuotedLine("domain", TomlEscape(domain)), lines + [Assign("domain", Str(domain))];
    AppendLine(lines, "root", root);
    out, lines := out + QuotedLine("root", TomlEscape(root)), lines + [Assign("root", Str(root))];
    NothingToEscape(kind, if tlsOff then Off else Auto);
    AppendLine(lines, "type", kindStr);
    out, lines := out + QuotedLine("type", kindStr), lines + [Assign("type", Str(kindStr))];
    AppendLine(lines, "tls", tlsStr);
    out, lines := out + QuotedLine("tls", tlsStr), lines + [Assign("tls", Str(tlsStr))];
    assert out == WriteLines(lines);
    if app.Some? {
      AppendLine(lines, "app", app.value);
      out, lines := out + QuotedLine("app", TomlEscape(app.value)), lines + [Assign("app", Str(app.value))];
    }
    if phpFpm.Some? {
      AppendLine(lines, "php_fpm", phpFpm.value);
      out, lines :=
        out + QuotedLine("php_fpm", TomlEscape(phpFpm.value)), lines + [Assign("php_fpm", Str(phpFpm.value))];
    }
    assert lines == SiteLines(Site(domain, root, kind, if tlsOff then Off else Auto, app, phpFpm, true));
  }

  lemma NoLines()
    ensures WriteLines([]) == ""
  {
  }

  lemma AppendLine(lines: seq<Assign>, name: string, value: string)
    ensures WriteLines(lines) + QuotedLine(name, TomlEscape(value))
         == WriteLines(lines + [Assign(name, Str(value))])
  {
    hide TomlEscape;
    hide WriteLines;
    WriteLinesConcat(lines, [Assign(name, Str(value))]);
    OneWrittenLine(Assign(name, Str(value)));
  }

  lemma NothingToEscape(k: Kind, t: Tls)
    ensures TomlEscape(KindName(k)) == KindName(k) && TomlEscape(TlsName(t)) == TlsName(t)
  {
    PlainIsKept(KindName(k));
    PlainIsKept(TlsName(t));
  }

  lemma {:induction false} PlainReplace(s: string, c: char, to: string)
    requires c !in s
    ensures Replace(s, c, to) == s
  {
    if s != "" {
      PlainReplace(s[1..], c, to);
      assert s == [s[0]] + s[1..];
    }
  }

  lemma PlainIsKept(s: string)
    requires '\\' !in s && '"' !in s
    ensures TomlEscape(s) == s
  {
    PlainReplace(s, '\\', "\\\\");
    PlainReplace(s, '"', "\\\"");
  }

  /** The sites directory: one file per domain. */
  class SitesDir {
    const fromToml: string -> Option<Site>
    var files: map<string, string>

    constructor (fromToml: string -> Option<Site>)
      ensures this.fromToml == fromToml && files == map[]
    {
      this.fromToml := fromToml;
      files := map[];
    }

    method SetEnabled(domain: string, enabled: bool) returns (ok: bool)
      modifies this
      ensures ok <==> domain in old(files) && fromToml(old(files)[domain]).Some?
      ensures files == if ok then old(files)[domain := SetEnabledText(fromToml, old(files)[domain], enabled).value]
                       else old(files)
    {
      if domain !in files {
        return false;
      }
      var read := fromToml(files[domain]);
      if read == None {
        return false;
      }
      var site := read.value;
      var toml := WriteSiteToml(site.domain, site.root, site.kind, site.tls == Off, site.app, site.phpFpm);
      EnabledNotInLines(site, true);
      toml := toml + WriteLine(EnabledLine(enabled));
      files := files[domain := toml];
      return true;
    }
  }
}
