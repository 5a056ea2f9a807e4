/**
 The binary layout of one cache file: key, expiry in whole seconds, status, headers, body,
 all integers little-endian and all strings length-prefixed.

 A Rust `String` is modelled by its UTF-8 bytes, one `char` (code below 256) per byte.
 */
module Codec {
  import opened Base

  datatype Header = Header(name: string, value: string)
  datatype Response = Response(status: u16, headers: seq<Header>, body: seq<byte>)
  datatype Entry = Entry(key: string, expiry: Time, response: Response)

  // ---------- Integers and strings as bytes ----------

  /** The low `width` bytes of `n`, least significant first: an `as uN` cast, then `to_le_bytes`. */
  function LE(n: nat, width: nat): (bytes: seq<byte>)
    ensures |bytes| == width
    decreases n + width
  {
    if width == 0 then [] else [n % 256] + LE(n / 256, width - 1)
  }

  function FromLE(bytes: seq<byte>): (n: nat)
    ensures n < Pow256(|bytes|)
  {
    if bytes == [] then 0 else bytes[0] + 256 * FromLE(bytes[1..])
  }

  function Pow256(width: nat): (p: nat)
    ensures p >= 1
  {
    if width == 0 then 1 else 256 * Pow256(width - 1)
  }

  lemma Pow256Values()
    ensures Pow256(2) == 0x1_0000
    ensures Pow256(4) == 0x1_0000_0000
    ensures Pow256(8) == 0x1_0000_0000_0000_0000
  {
    assert Pow256(1) == 256 && Pow256(2) == 256 * 256;
    assert Pow256(3) == 0x100_0000 && Pow256(4) == 0x1_0000_0000;
    assert Pow256(5) == 0x100_0000_0000 && Pow256(6) == 0x1_0000_0000_0000;
    assert Pow256(7) == 0x100_0000_0000_0000;
  }

  lemma {:induction false} FromLEofLE(n: nat, width: nat)
    requires n < Pow256(width)
    ensures FromLE(LE(n, width)) == n
  {
    if width > 0 {
      assert n / 256 < Pow256(width - 1);
      FromLEofLE(n / 256, width - 1);
      assert LE(n, width)[1..] == LE(n / 256, width - 1);
    }
  }

  lemma {:induction false} LEofFromLE(bytes: seq<byte>)
    ensures LE(FromLE(bytes), |bytes|) == bytes
  {
    if bytes != [] {
      LEofFromLE(bytes[1..]);
      var n := FromLE(bytes);
      assert n % 256 == bytes[0] && n / 256 == FromLE(bytes[1..]);
    }
  }

  function AsBytes(s: string): seq<byte> {
    seq(|s|, i requires 0 <= i < |s| => s[i] as int % 256)
  }

  function FromBytes(bytes: seq<byte>): string {
    seq(|bytes|, i requires 0 <= i < |bytes| => bytes[i] as char)
  }

  // ---------- Layout ----------

  /** `expiry.duration_since(UNIX_EPOCH)` in whole seconds; an expiry before the epoch becomes 0. */
  function ExpirySeconds(t: Time): nat {
    if t < 0 then 0 else t / NANOS
  }

  /** What is left of an expiry after a trip through a file. */
  function DiskExpiry(t: Time): Time {
    Seconds(ExpirySeconds(t))
  }

  function StrBytes(s: string): seq<byte> {
    LE(|s|, 4) + AsBytes(s)
  }

  function HeaderBytes(headers: seq<Header>): seq<byte> {
    if headers == [] then []
    else StrBytes(headers[0].name) + StrBytes(headers[0].value) + HeaderBytes(headers[1..])
  }

  function Encoding(e: Entry): seq<byte> {
    StrBytes(e.key)
    + LE(ExpirySeconds(e.expiry), 8)
    + LE(e.response.status, 2)
    + LE(|e.response.headers|, 4)
    + HeaderBytes(e.response.headers)
    + LE(|e.response.body|, 8)
    + e.response.body
  }

  predicate StrFits(s: string) {
    |s| < 0x1_0000_0000 && forall i | 0 <= i < |s| :: s[i] as int < 256
  }

  predicate HeadersFit(headers: seq<Header>) {
    forall i | 0 <= i < |headers| :: StrFits(headers[i].name) && StrFits(headers[i].value)
  }

  /** Lengths fit their fields, and the expiry is one `SystemTime` can hold. */
  predicate Fits(e: Entry) {
    && StrFits(e.key)
    && HeadersFit(e.response.headers)
    && |e.response.headers| < 0x1_0000_0000
    && |e.response.body| < 0x1_0000_0000_0000_0000
    && ExpirySeconds(e.expiry) < SYSTEM_TIME_SECONDS
  }

  /** `SystemTime` counts seconds in an `i64`; adding a longer duration to the epoch panics. */
  const SYSTEM_TIME_SECONDS: nat := 0x8000_0000_0000_0000

  // ---------- Reading ----------

  datatype Parsed<+T> = Parsed(value: T, rest: seq<byte>)

  /** The result of `decode`: an entry and the bytes after it, truncated input, or the overflow panic. */
  datatype Decoded = Complete(entry: Entry, rest: seq<byte>) | Truncated | ClockOverflow

  function ParseBytes(s: seq<byte>, n: nat): Option<Parsed<seq<byte>>> {
    if |s| < n then None else Some(Parsed(s[..n], s[n..]))
  }

  function ParseInt(s: seq<byte>, width: nat): Option<Parsed<nat>> {
    match ParseBytes(s, width)
    case None => None
    case Some(p) => Some(Parsed(FromLE(p.value), p.rest))
  }

  function ParseStr(s: seq<byte>): Option<Parsed<string>> {
    match ParseInt(s, 4)
    case None => None
    case Some(n) =>
      match ParseBytes(n.rest, n.value)
      case None => None
      case Some(p) => Some(Parsed(FromBytes(p.value), p.rest))
  }

  function ParseHeader(s: seq<byte>): Option<Parsed<Header>> {
    match ParseStr(s)
    case None => None
    case Some(name) =>
      match ParseStr(name.rest)
      case None => None
      case Some(value) => Some(Parsed(Header(name.value, value.value), value.rest))
  }

  function ParseHeaders(s: seq<byte>, count: nat): Option<Parsed<seq<Header>>> {
    if count == 0 then Some(Parsed([], s))
    else
      match ParseHeader(s)
      case None => None
      case Some(h) => Prepend([h.value], ParseHeaders(h.rest, count - 1))
  }

  function Prepend(headers: seq<Header>, p: Option<Parsed<seq<Header>>>): Option<Parsed<seq<Header>>> {
    match p
    case None => None
    case Some(p) => Some(Parsed(headers + p.value, p.rest))
  }

  function Decoding(buf: seq<byte>): Decoded {
    match ParseStr(buf)
    case None => Truncated
    case Some(key) =>
      match ParseInt(key.rest, 8)
      case None => Truncated
      case Some(secs) =>
        if secs.value >= SYSTEM_TIME_SECONDS then ClockOverflow
        else DecodingResponse(key.value, Seconds(secs.value), secs.rest)
  }

  function DecodingResponse(key: string, expiry: Time, buf: seq<byte>): (d: Decoded)
    ensures d != ClockOverflow
  {
    match ParseInt(buf, 2)
    case None => Truncated
    case Some(status) => DecodingHeaders(key, expiry, status.value % 0x1_0000, status.rest)
  }

  function DecodingHeaders(key: string, expiry: Time, status: u16, buf: seq<byte>): (d: Decoded)
    ensures d != ClockOverflow
  {
    match ParseInt(buf, 4)
    case None => Truncated
    case Some(count) =>
      match ParseHeaders(count.rest, count.value)
      case None => Truncated
      case Some(headers) => DecodingBody(key, expiry, status, headers.value, headers.rest)
  }

  function DecodingBody(key: string, expiry: Time, status: u16, headers: seq<Header>, buf: seq<byte>): (d: Decoded)
    ensures d != ClockOverflow
  {
    match ParseInt(buf, 8)
    case None => Truncated
    case Some(len) =>
      match ParseBytes(len.rest, len.value)
      case None => Truncated
      case Some(body) => Complete(Entry(key, expiry, Response(status, headers, body.value)), body.rest)
  }

  // ---------- Round trip ----------

  lemma ParseIntOfLE(n: nat, width: nat, tail: seq<byte>)
    requires n < Pow256(width)
    ensures ParseInt(LE(n, width) + tail, width) == Some(Parsed(n, tail))
  {
    FromLEofLE(n, width);
    var s := LE(n, width) + tail;
    assert s[..width] == LE(n, width) && s[width..] == tail;
  }

  lemma LEofParseInt(s: seq<byte>, width: nat)
    requires ParseInt(s, width).Some?
    ensures var p := ParseInt(s, width).value; s == LE(p.value, width) + p.rest && p.value < Pow256(width)
  {
    hide LE;
    hide FromLE;
    hide Pow256;
    var head, tail := s[..width], s[width..];
    var p := ParseInt(s, width).value;
    hide ParseInt;
    assert |head| == width && s == head + tail;
    assert p.value == FromLE(head) && p.rest == tail;
    LEofFromLE(head);
  }

  lemma ParseStrOfStrBytes(s: string, tail: seq<byte>)
    requires StrFits(s)
    ensures ParseStr(StrBytes(s) + tail) == Some(Parsed(s, tail))
  {
    Pow256Values();
    var rest := AsBytes(s) + tail;
    assert StrBytes(s) + tail == LE(|s|, 4) + rest;
    ParseIntOfLE(|s|, 4, rest);
    assert rest[..|s|] == AsBytes(s) && rest[|s|..] == tail;
    assert FromBytes(AsBytes(s)) == s;
  }

  lemma StrBytesOfParseStr(s: seq<byte>)
    requires ParseStr(s).Some?
    ensures var p := ParseStr(s).value; s == StrBytes(p.value) + p.rest && StrFits(p.value)
  {
    Pow256Values();
    LEofParseInt(s, 4);
    var n := ParseInt(s, 4).value;
    var p := ParseStr(s).value;
    assert AsBytes(p.value) == n.rest[..n.value];
    assert s == LE(n.value, 4) + (n.rest[..n.value] + n.rest[n.value..]);
  }

  lemma ParseHeaderOfBytes(h: Header, tail: seq<byte>)
    requires StrFits(h.name) && StrFits(h.value)
    ensures ParseHeader(StrBytes(h.name) + (StrBytes(h.value) + tail)) == Some(Parsed(h, tail))
  {
    ParseStrOfStrBytes(h.name, StrBytes(h.value) + tail);
    ParseStrOfStrBytes(h.value, tail);
  }

  lemma BytesOfParseHeader(s: seq<byte>)
    requires ParseHeader(s).Some?
    ensures var p := ParseHeader(s).value;
            && s == StrBytes(p.value.name) + (StrBytes(p.value.value) + p.rest)
            && StrFits(p.value.name) && StrFits(p.value.value)
  {
    StrBytesOfParseStr(s);
    StrBytesOfParseStr(ParseStr(s).value.rest);
  }

  lemma HeaderBytesStep(h: Header, headers: seq<Header>, tail: seq<byte>)
    ensures HeaderBytes([h] + headers) + tail
         == StrBytes(h.name) + (StrBytes(h.value) + (HeaderBytes(headers) + tail))
  {
    assert ([h] + headers)[1..] == headers;
  }

  lemma NoHeaderBytes(tail: seq<byte>)
    ensures HeaderBytes([]) + tail == tail
  {
  }

  lemma {:induction false} ParseHeadersOfBytes(headers: seq<Header>, tail: seq<byte>)
    requires HeadersFit(headers)
    ensures ParseHeaders(HeaderBytes(headers) + tail, |headers|) == Some(Parsed(headers, tail))
  {
    hide ParseHeader;
    hide StrBytes;
    hide StrFits;
    if headers == [] {
      NoHeaderBytes(tail);
    } else {
      var h, rest := headers[0], headers[1..];
      assert [h] + rest == headers;
      HeaderBytesStep(h, rest, tail);
      ParseHeaderOfBytes(h, HeaderBytes(rest) + tail);
      ParseHeadersOfBytes(rest, tail);
    }
  }

  lemma {:induction false} BytesOfParseHeaders(s: seq<byte>, count: nat)
    requires ParseHeaders(s, count).Some?
    ensures var p := ParseHeaders(s, count).value;
            s == HeaderBytes(p.value) + p.rest && HeadersFit(p.value) && |p.value| == count
    decreases count
  {
    hide HeaderBytes;
    hide ParseHeader;
    hide StrBytes;
    hide StrFits;
    if count == 0 {
      NoHeaderBytes(s);
    } else {
      BytesOfParseHeader(s);
      var h := ParseHeader(s).value;
      BytesOfParseHeaders(h.rest, count - 1);
      var p := ParseHeaders(h.rest, count - 1).value;
      HeaderBytesStep(h.value, p.value, p.rest);
    }
  }

  /** The body field, then `tail`. */
  function BodyBytes(body: seq<byte>, tail: seq<byte>): seq<byte> {
    LE(|body|, 8) + (body + tail)
  }

  /** Everything the layout stores after the key and the expiry, then `tail`. */
  function ResponseBytes(r: Response, tail: seq<byte>): seq<byte> {
    LE(r.status, 2) + (LE(|r.headers|, 4) + (HeaderBytes(r.headers) + BodyBytes(r.body, tail)))
  }

  predicate ResponseFits(r: Response) {
    && HeadersFit(r.headers)
    && |r.headers| < 0x1_0000_0000
    && |r.body| < 0x1_0000_0000_0000_0000
  }

  lemma EncodingParts(e: Entry, tail: seq<byte>)
    ensures Encoding(e) + tail
         == StrBytes(e.key) + (LE(ExpirySeconds(e.expiry), 8) + ResponseBytes(e.response, tail))
  {
  }

  lemma DecodeBodyBytes(key: string, expiry: Time, r: Response, tail: seq<byte>)
    requires ResponseFits(r)
    ensures DecodingBody(key, expiry, r.status, r.headers, BodyBytes(r.body, tail))
         == Complete(Entry(key, expiry, r), tail)
  {
    Pow256Values();
    var rest := r.body + tail;
    ParseIntOfLE(|r.body|, 8, rest);
    assert rest[..|r.body|] == r.body && rest[|r.body|..] == tail;
  }

  lemma DecodeResponseBytes(key: string, expiry: Time, r: Response, tail: seq<byte>)
    requires ResponseFits(r)
    ensures DecodingResponse(key, expiry, ResponseBytes(r, tail)) == Complete(Entry(key, expiry, r), tail)
  {
    hide LE;
    hide Pow256;
    hide HeaderBytes;
    hide BodyBytes;
    hide DecodingBody;
    hide ParseHeaders;
    hide HeadersFit;
    hide ParseInt;
    Pow256Values();
    var b2 := HeaderBytes(r.headers) + BodyBytes(r.body, tail);
    var b1 := LE(|r.headers|, 4) + b2;
    ParseIntOfLE(r.status, 2, b1);
    ParseIntOfLE(|r.headers|, 4, b2);
    ParseHeadersOfBytes(r.headers, BodyBytes(r.body, tail));
    DecodeBodyBytes(key, expiry, r, tail);
  }

  lemma LastWholeSecond(t: Time)
    ensures DiskExpiry(t) == if t < 0 then 0 else t - t % NANOS
  {
  }

  /** Decoding undoes encoding, whatever bytes follow; only the sub-second part of the expiry is lost. */
  lemma DecodeOfEncode(e: Entry, tail: seq<byte>)
    requires Fits(e)
    ensures Decoding(Encoding(e) + tail) == Complete(e.(expiry := DiskExpiry(e.expiry)), tail)
    ensures DiskExpiry(e.expiry) == if e.expiry < 0 then 0 else e.expiry - e.expiry % NANOS
  {
    LastWholeSecond(e.expiry);
    hide ExpirySeconds;
    hide LE;
    hide Pow256;
    hide ParseInt;
    hide ParseStr;
    hide StrBytes;
    hide DecodingResponse;
    hide ResponseBytes;
    hide HeadersFit;
    hide StrFits;
    hide Encoding;
    Pow256Values();
    EncodingParts(e, tail);
    var rest := ResponseBytes(e.response, tail);
    ParseStrOfStrBytes(e.key, LE(ExpirySeconds(e.expiry), 8) + rest);
    ParseIntOfLE(ExpirySeconds(e.expiry), 8, rest);
    DecodeResponseBytes(e.key, DiskExpiry(e.expiry), e.response, tail);
  }

  lemma BytesOfDecodingBody(key: string, expiry: Time, status: u16, headers: seq<Header>, buf: seq<byte>)
    requires DecodingBody(key, expiry, status, headers, buf).Complete?
    ensures var d := DecodingBody(key, expiry, status, headers, buf);
            && d.entry == Entry(key, expiry, Response(status, headers, d.entry.response.body))
            && buf == BodyBytes(d.entry.response.body, d.rest)
            && |d.entry.response.body| < 0x1_0000_0000_0000_0000
  {
    hide LE;
    hide FromLE;
    hide Pow256;
    hide ParseInt;
    Pow256Values();
    LEofParseInt(buf, 8);
    var len := ParseInt(buf, 8).value;
    assert len.rest == len.rest[..len.value] + len.rest[len.value..];
  }

  lemma BytesOfDecodingHeaders(key: string, expiry: Time, status: u16, buf: seq<byte>)
    requires DecodingHeaders(key, expiry, status, buf).Complete?
    ensures var d := DecodingHeaders(key, expiry, status, buf);
            var r := d.entry.response;
            && d.entry == Entry(key, expiry, Response(status, r.headers, r.body))
            && buf == LE(|r.headers|, 4) + (HeaderBytes(r.headers) + BodyBytes(r.body, d.rest))
            && ResponseFits(r)
  {
    hide LE;
    hide FromLE;
    hide Pow256;
    hide ParseInt;
    hide HeaderBytes;
    hide BodyBytes;
    hide DecodingBody;
    hide ParseHeaders;
    hide HeadersFit;
    Pow256Values();
    LEofParseInt(buf, 4);
    var count := ParseInt(buf, 4).value;
    BytesOfParseHeaders(count.rest, count.value);
    var headers := ParseHeaders(count.rest, count.value).value;
    BytesOfDecodingBody(key, expiry, status, headers.value, headers.rest);
  }

  lemma BytesOfDecodingResponse(key: string, expiry: Time, buf: seq<byte>)
    requires DecodingResponse(key, expiry, buf).Complete?
    ensures var d := DecodingResponse(key, expiry, buf);
            && d.entry.key == key && d.entry.expiry == expiry
            && buf == ResponseBytes(d.entry.response, d.rest)
            && ResponseFits(d.entry.response)
  {
    hide LE;
    hide FromLE;
    hide Pow256;
    hide ParseInt;
    hide HeaderBytes;
    hide BodyBytes;
    hide DecodingHeaders;
    hide ResponseFits;
    Pow256Values();
    LEofParseInt(buf, 2);
    var status := ParseInt(buf, 2).value;
    BytesOfDecodingHeaders(key, expiry, status.value, status.rest);
  }

  /** Whatever decodes was written by `encode`: the entry re-encodes to exactly the bytes consumed. */
  lemma EncodeOfDecode(buf: seq<byte>)
    requires Decoding(buf).Complete?
    ensures var d := Decoding(buf);
            buf == Encoding(d.entry) + d.rest && Fits(d.entry) && WholeSeconds(d.entry.expiry)
  {
    hide LE;
    hide FromLE;
    hide Pow256;
    hide ParseInt;
    hide ParseStr;
    hide StrBytes;
    hide DecodingResponse;
    hide ResponseBytes;
    hide HeadersFit;
    hide StrFits;
    hide Encoding;
    StrBytesOfParseStr(buf);
    var key := ParseStr(buf).value;
    LEofParseInt(key.rest, 8);
    var secs := ParseInt(key.rest, 8).value;
    BytesOfDecodingResponse(key.value, Seconds(secs.value), secs.rest);
    var d := Decoding(buf);
    assert d.entry.expiry == secs.value * NANOS;
    assert ExpirySeconds(d.entry.expiry) == secs.value;
    EncodingParts(d.entry, d.rest);
  }

  predicate WholeSeconds(t: Time) {
    t >= 0 && t % NANOS == 0
  }

  /** An entry survives the file unchanged exactly when it fits and its expiry has no sub-second part. */
  lemma RoundTripExactly(e: Entry, tail: seq<byte>)
    ensures Decoding(Encoding(e) + tail) == Complete(e, tail) <==> Fits(e) && WholeSeconds(e.expiry)
  {
    if Fits(e) {
      DecodeOfEncode(e, tail);
    }
    if Decoding(Encoding(e) + tail) == Complete(e, tail) {
      EncodeOfDecode(Encoding(e) + tail);
    }
  }

  /** Bytes after a complete entry are left alone. */
  lemma DecodeExtends(buf: seq<byte>, tail: seq<byte>)
    requires Decoding(buf).Complete?
    ensures Decoding(buf + tail) == Complete(Decoding(buf).entry, Decoding(buf).rest + tail)
  {
    hide Encoding;
    hide Decoding;
    var d := Decoding(buf);
    EncodeOfDecode(buf);
    assert buf + tail == Encoding(d.entry) + (d.rest + tail);
    DecodeOfEncode(d.entry, d.rest + tail);
    assert d.entry == d.entry.(expiry := DiskExpiry(d.entry.expiry));
  }

  /** Once the stored seconds overflow, more input does not change that. */
  lemma ClockOverflowSpreads(buf: seq<byte>, tail: seq<byte>)
    requires Decoding(buf) == ClockOverflow
    ensures Decoding(buf + tail) == ClockOverflow
  {
    hide LE;
    hide FromLE;
    hide Pow256;
    hide ParseInt;
    hide ParseStr;
    hide StrBytes;
    hide DecodingResponse;
    hide StrFits;
    StrBytesOfParseStr(buf);
    var key := ParseStr(buf).value;
    LEofParseInt(key.rest, 8);
    var secs := ParseInt(key.rest, 8).value;
    var rest := LE(secs.value, 8) + (secs.rest + tail);
    assert buf + tail == StrBytes(key.value) + rest;
    ParseStrOfStrBytes(key.value, rest);
    ParseIntOfLE(secs.value, 8, secs.rest + tail);
  }

  /** No strict prefix of a cache file decodes, so a torn file is never mistaken for an entry. */
  lemma PrefixFree(e: Entry, n: nat)
    requires Fits(e) && n < |Encoding(e)|
    ensures Decoding(Encoding(e)[..n]) == Truncated
  {
    var cut, missing := Encoding(e)[..n], Encoding(e)[n..];
    assert cut + missing == Encoding(e) + [];
    DecodeOfEncode(e, []);
    if Decoding(cut) == ClockOverflow {
      ClockOverflowSpreads(cut, missing);
    } else if Decoding(cut).Complete? {
      DecodeExtends(cut, missing);
    }
  }

  /** Two entries whose files agree are the same entry, up to the sub-second part of the expiry. */
  lemma EncodingInjective(a: Entry, b: Entry)
    requires Fits(a) && Fits(b) && Encoding(a) == Encoding(b)
    ensures a.(expiry := 0) == b.(expiry := 0) && DiskExpiry(a.expiry) == DiskExpiry(b.expiry)
  {
    DecodeOfEncode(a, []);
    DecodeOfEncode(b, []);
    assert a.(expiry := 0) == a.(expiry := DiskExpiry(a.expiry)).(expiry := 0);
  }

  // ---------- The code that reads and writes ----------

  /** The `Vec<u8>` that `encode` appends to. */
  class Buffer {
    var data: seq<byte>

    constructor ()
      ensures data == []
    {
      data := [];
    }

    method ExtendFromSlice(bytes: seq<byte>)
      modifies this
      ensures data == old(data) + bytes
    {
      data := data + bytes;
    }

    /** Strings carry their length in front, cut to 32 bits. */
    method WriteBytes(s: string)
      modifies this
      ensures data == old(data) + StrBytes(s)
    {
      ExtendFromSlice(LE(|s|, 4));
      ExtendFromSlice(AsBytes(s));
    }
  }

  method Encode(e: Entry) returns (bytes: seq<byte>)
    ensures bytes == Encoding(e)
  {
    hide LE;
    hide HeaderBytes;
    hide StrBytes;
    var out := new Buffer();
    out.WriteBytes(e.key);
    out.ExtendFromSlice(LE(ExpirySeconds(e.expiry), 8));
    out.ExtendFromSlice(LE(e.response.status, 2));
    out.ExtendFromSlice(LE(|e.response.headers|, 4));
    WriteHeaders(out, e.response.headers);
    out.ExtendFromSlice(LE(|e.response.body|, 8));
    out.ExtendFromSlice(e.response.body);
    bytes := out.data;
  }

  method WriteHeaders(out: Buffer, headers: seq<Header>)
    modifies out
    ensures out.data == old(out.data) + HeaderBytes(headers)
  {
    for i := 0 to |headers|
      invariant out.data + HeaderBytes(headers[i..]) == old(out.data) + HeaderBytes(headers)
    {
      ghost var before := out.data;
      out.WriteBytes(headers[i].name);
      out.WriteBytes(headers[i].value);
      assert headers[i..] == [headers[i]] + headers[i + 1..];
      HeaderBytesStep(headers[i], headers[i + 1..], []);
      AppendHeader(before, headers[i], headers[i + 1..]);
    }
    assert headers[|headers|..] == [];
  }

  lemma AppendHeader(before: seq<byte>, h: Header, headers: seq<Header>)
    ensures before + StrBytes(h.name) + StrBytes(h.value) + HeaderBytes(headers)
         == before + HeaderBytes([h] + headers)
  {
    assert ([h] + headers)[1..] == headers;
  }

  /** The position in a file being decoded; it only ever moves past bytes that are there. */
  class Reader {
    const buf: seq<byte>
    var pos: nat

    ghost predicate Valid()
      reads this
    {
      pos <= |buf|
    }

    function Rest(): seq<byte>
      reads this
      requires Valid()
    {
      buf[pos..]
    }

    constructor (buf: seq<byte>)
      ensures Valid() && Rest() == buf
    {
      this.buf := buf;
      pos := 0;
    }

    method Take(n: nat) returns (r: Option<seq<byte>>)
      requires Valid()
      modifies this
      ensures Valid()
      ensures r.Some? ==> ParseBytes(old(Rest()), n) == Some(Parsed(r.value, Rest()))
      ensures r.None? ==> ParseBytes(old(Rest()), n) == None && Rest() == old(Rest())
    {
      var end := pos + n;
      if end > |buf| {
        return None;
      }
      assert Rest()[..n] == buf[pos..end] && Rest()[n..] == buf[end..];
      r := Some(buf[pos..end]);
      pos := end;
    }

    /** `u16`, `u32` and `u64` differ only in their width. */
    method Int(width: nat) returns (r: Option<nat>)
      requires Valid()
      modifies this
      ensures Valid()
      ensures r.Some? ==> ParseInt(old(Rest()), width) == Some(Parsed(r.value, Rest()))
      ensures r.None? ==> ParseInt(old(Rest()), width) == None && Rest() == old(Rest())
    {
      var bytes := Take(width);
      match bytes {
        case None => r := None;
        case Some(b) => r := Some(FromLE(b));
      }
    }

    method String() returns (r: Option<string>)
      requires Valid()
      modifies this
      ensures Valid()
      ensures r.Some? ==> ParseStr(old(Rest())) == Some(Parsed(r.value, Rest()))
      ensures r.None? ==> ParseStr(old(Rest())) == None
    {
      var len := Int(4);
      if len == None {
        return None;
      }
      var bytes := Take(len.value);
      match bytes {
        case None => r := None;
        case Some(b) => r := Some(FromBytes(b));
      }
    }
  }

  method Decode(buf: seq<byte>) returns (d: Decoded)
    ensures d == Decoding(buf)
  {
    var reader := new Reader(buf);
    var key := reader.String();
    if key == None {
      return Truncated;
    }
    var secs := reader.Int(8);
    if secs == None {
      return Truncated;
    }
    if secs.value >= SYSTEM_TIME_SECONDS {
      return ClockOverflow;
    }
    d := DecodeResponse(reader, key.value, Seconds(secs.value));
  }

  method DecodeResponse(reader: Reader, key: string, expiry: Time) returns (d: Decoded)
    requires reader.Valid()
    modifies reader
    ensures d == DecodingResponse(key, expiry, old(reader.Rest()))
  {
    hide ParseInt;
    hide ParseHeaders;
    var status := reader.Int(2);
    if status == None {
      return Truncated;
    }
    var count := reader.Int(4);
    if count == None {
      return Truncated;
    }
    var headers := DecodeHeaders(reader, count.value);
    if headers == None {
      return Truncated;
    }
    var len := reader.Int(8);
    if len == None {
      return Truncated;
    }
    var body := reader.Take(len.value);
    if body == None {
      return Truncated;
    }
    d := Complete(Entry(key, expiry, Response(status.value % 0x1_0000, headers.value, body.value)), reader.Rest());
  }

  method DecodeHeaders(reader: Reader, count: nat) returns (r: Option<seq<Header>>)
    requires reader.Valid()
    modifies reader
    ensures reader.Valid()
    ensures r.Some? ==> ParseHeaders(old(reader.Rest()), count) == Some(Parsed(r.value, reader.Rest()))
    ensures r.None? ==> ParseHeaders(old(reader.Rest()), count) == None
  {
    hide ParseStr;
    var headers := [];
    PrependNothing(ParseHeaders(reader.Rest(), count));
    for i := 0 to count
      invariant reader.Valid()
      invariant Prepend(headers, ParseHeaders(reader.Rest(), count - i)) == ParseHeaders(old(reader.Rest()), count)
    {
      var name := reader.String();
      if name == None {
        return None;
      }
      var value := reader.String();
      if value == None {
        return None;
      }
      PrependTwice(headers, Header(name.value, value.value), ParseHeaders(reader.Rest(), count - i - 1));
      headers := headers + [Header(name.value, value.value)];
    }
    assert headers + [] == headers;
    r := Some(headers);
  }

  lemma PrependNothing(p: Option<Parsed<seq<Header>>>)
    ensures Prepend([], p) == p
  {
    if p.Some? {
      assert [] + p.value.value == p.value.value;
    }
  }

  lemma PrependTwice(headers: seq<Header>, h: Header, p: Option<Parsed<seq<Header>>>)
    ensures Prepend(headers, Prepend([h], p)) == Prepend(headers + [h], p)
  {
    if p.Some? {
      assert headers + ([h] + p.value.value) == headers + [h] + p.value.value;
    }
  }
}
