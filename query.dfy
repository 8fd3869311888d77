/** The query string the relay endpoint appends to the collection endpoint:
    PHP's `http_build_query` with its default `PHP_QUERY_RFC1738` encoding
    (`urlencode`: letters, digits and `-_.` stay, a space becomes `+`,
    every other byte becomes `%XX` in upper-case hex, as in section 2.2 of
    RFC 1738), followed by `str_replace('+', '%20', ...)`. A decoder for
    `application/x-www-form-urlencoded` text is the partner: what the
    collection endpoint reads back is exactly the merged parameters. */
module Query {
  import opened Values
  import opened Decimal
  import opened Dict

  type byte = b: int | 0 <= b < 256

  /** The UTF-8 encoding of one code point (PHP strings are bytes; the
      event body arrives as JSON, whose strings PHP holds in UTF-8). */
  function Utf8(c: char): (bs: seq<byte>)
    ensures 1 <= |bs| <= 4
  {
    var n := c as int;
    if n < 0x80 then [n]
    else if n < 0x800 then [0xC0 + n / 64, 0x80 + n % 64]
    else if n < 0x10000 then [0xE0 + n / 4096, 0x80 + (n / 64) % 64, 0x80 + n % 64]
    else [0xF0 + n / 262144, 0x80 + (n / 4096) % 64, 0x80 + (n / 64) % 64, 0x80 + n % 64]
  }

  function Utf8Bytes(s: string): seq<byte> {
    if s == [] then [] else Utf8(s[0]) + Utf8Bytes(s[1..])
  }

  /** The characters `urlencode` leaves as they are. */
  predicate IsUnreservedChar(c: char) {
    ('a' <= c <= 'z') || ('A' <= c <= 'Z') || ('0' <= c <= '9') || c == '-' || c == '_' || c == '.'
  }

  predicate Unreserved(b: byte) { IsUnreservedChar(b as char) }

  /** Upper-case hexadecimal digit, as `urlencode` writes them. */
  function HexChar(n: int): (c: char)
    requires 0 <= n < 16
    ensures IsUnreservedChar(c) && IsHexDigit(c) && HexDigitValue(c) == n
  {
    if n < 10 then ('0' as int + n) as char else ('A' as int + n - 10) as char
  }

  /** `urlencode` of one byte. */
  function EncodeByte(b: byte): string {
    if Unreserved(b) then [b as char]
    else if b == 32 then "+"
    else ['%', HexChar(b / 16), HexChar(b % 16)]
  }

  function EncodeBytes(bs: seq<byte>): string {
    if bs == [] then "" else EncodeByte(bs[0]) + EncodeBytes(bs[1..])
  }

  /** PHP's `urlencode($s)`. */
  function UrlEncode(s: string): string {
    EncodeBytes(Utf8Bytes(s))
  }

  /** What a query string may contain once `+` has been rewritten. */
  predicate SafeChar(c: char) { IsUnreservedChar(c) || c == '%' }

  /** One byte as it stands in the final query: like `urlencode`, with a
      space as `%20`. */
  function RawEncodeByte(b: byte): (r: string)
    ensures forall i :: 0 <= i < |r| ==> SafeChar(r[i])
  {
    if Unreserved(b) then [b as char] else ['%', HexChar(b / 16), HexChar(b % 16)]
  }

  /** The bytes as they stand in the final query: only unreserved
      characters and `%`; in particular no `+`, `&` or `=`. */
  function RawEncodeBytes(bs: seq<byte>): (r: string)
    ensures forall i :: 0 <= i < |r| ==> SafeChar(r[i])
  {
    if bs == [] then ""
    else
      var head := RawEncodeByte(bs[0]);
      var tail := RawEncodeBytes(bs[1..]);
      assert forall i :: 0 <= i < |head + tail| ==>
        (head + tail)[i] == if i < |head| then head[i] else tail[i - |head|];
      head + tail
  }

  /** `str_replace('+', '%20', $s)`. */
  function ReplacePlus(s: string): string {
    if s == [] then "" else (if s[0] == '+' then "%20" else [s[0]]) + ReplacePlus(s[1..])
  }

  lemma {:induction false} ReplacePlusConcat(a: string, b: string)
    ensures ReplacePlus(a + b) == ReplacePlus(a) + ReplacePlus(b)
  {
    if a == [] {
      assert a + b == b;
    } else {
      assert (a + b)[0] == a[0] && (a + b)[1..] == a[1..] + b;
      ReplacePlusConcat(a[1..], b);
    }
  }

  lemma ReplacePlusSafe(s: string)
    requires forall i :: 0 <= i < |s| ==> SafeChar(s[i])
    ensures ReplacePlus(s) == s
  {
    if s != [] {
      assert SafeChar(s[0]) && s[0] != '+';
      ReplacePlusSafe(s[1..]);
      assert s == [s[0]] + s[1..];
    }
  }

  /** Rewriting `+` in `urlencode`'s output turns exactly the encoded
      spaces into `%20`: a literal `+` byte was already written `%2B`. */
  lemma {:induction false} ReplacePlusEncodeBytes(bs: seq<byte>)
    ensures ReplacePlus(EncodeBytes(bs)) == RawEncodeBytes(bs)
  {
    if bs != [] {
      ReplacePlusConcat(EncodeByte(bs[0]), EncodeBytes(bs[1..]));
      ReplacePlusEncodeBytes(bs[1..]);
      if bs[0] != 32 {
        ReplacePlusSafe(EncodeByte(bs[0]));
      }
    }
  }

  /** How `http_build_query` writes a scalar value: `null` is left out,
      booleans as `1`/`0`, integers in decimal, strings `urlencode`d. */
  function EncodedValue(v: Value): Option<string> {
    match v
    case Null => None
    case Bool(b) => Some(if b then "1" else "0")
    case Int(i) => Some(IntToString(i))
    case Str(s) => Some(UrlEncode(s))
  }

  /** The `key=value` pairs of `http_build_query($d)`, in order. */
  function Pairs(d: seq<(string, Value)>): seq<string> {
    if d == [] then []
    else
      match EncodedValue(d[0].1)
      case None => Pairs(d[1..])
      case Some(e) => [UrlEncode(d[0].0) + "=" + e] + Pairs(d[1..])
  }

  function Join(parts: seq<string>, sep: char): string {
    if parts == [] then ""
    else if |parts| == 1 then parts[0]
    else parts[0] + [sep] + Join(parts[1..], sep)
  }

  /** PHP's `http_build_query($d)` for flat scalar values. */
  function BuildQuery(d: seq<(string, Value)>): string {
    Join(Pairs(d), '&')
  }

  /** The query the relay sends: `str_replace('+', '%20', http_build_query($d))`. */
  function QueryString(d: seq<(string, Value)>): string {
    ReplacePlus(BuildQuery(d))
  }

  // ----- The reading side -----

  /** The text a scalar value stands for, before any encoding. */
  function ScalarText(v: Value): Option<string> {
    match v
    case Null => None
    case Bool(b) => Some(if b then "1" else "0")
    case Int(i) => Some(IntToString(i))
    case Str(s) => Some(s)
  }

  /** The fields the collection endpoint should read: each non-null entry
      as the UTF-8 bytes of its key and of its value's text, in order. */
  function Fields(d: seq<(string, Value)>): seq<(seq<byte>, seq<byte>)> {
    if d == [] then []
    else
      match ScalarText(d[0].1)
      case None => Fields(d[1..])
      case Some(t) => [(Utf8Bytes(d[0].0), Utf8Bytes(t))] + Fields(d[1..])
  }

  /** Percent-decoding with `+` read as a space. */
  function DecodeComponent(s: string): Option<seq<byte>> {
    if s == [] then Some([])
    else if s[0] == '%' then
      if |s| >= 3 && IsHexDigit(s[1]) && IsHexDigit(s[2]) then
        match DecodeComponent(s[3..])
        case None => None
        case Some(rest) => Some([16 * HexDigitValue(s[1]) + HexDigitValue(s[2])] + rest)
      else None
    else if s[0] == '+' then
      match DecodeComponent(s[1..])
      case None => None
      case Some(rest) => Some([32] + rest)
    else if (s[0] as int) < 128 then
      match DecodeComponent(s[1..])
      case None => None
      case Some(rest) => Some([s[0] as int] + rest)
    else None
  }

  function Split(s: string, sep: char): (parts: seq<string>)
    ensures |parts| >= 1
  {
    if s == [] then [""]
    else
      var rest := Split(s[1..], sep);
      if s[0] == sep then [""] + rest else [[s[0]] + rest[0]] + rest[1..]
  }

  function ParsePair(p: string): Option<(seq<byte>, seq<byte>)> {
    var kv := Split(p, '=');
    if |kv| != 2 then None
    else
      match (DecodeComponent(kv[0]), DecodeComponent(kv[1]))
      case (Some(k), Some(v)) => Some((k, v))
      case _ => None
  }

  function ParsePairs(ps: seq<string>): Option<seq<(seq<byte>, seq<byte>)>> {
    if ps == [] then Some([])
    else
      match (ParsePair(ps[0]), ParsePairs(ps[1..]))
      case (Some(f), Some(fs)) => Some([f] + fs)
      case _ => None
  }

  /** How a form-encoded query is read back into fields. */
  function ParseQuery(q: string): Option<seq<(seq<byte>, seq<byte>)>> {
    if q == "" then Some([]) else ParsePairs(Split(q, '&'))
  }

  // ----- Proofs -----

  lemma {:induction false} DecodeRawEncode(bs: seq<byte>)
    ensures DecodeComponent(RawEncodeBytes(bs)) == Some(bs)
  {
    if bs != [] {
      var head := RawEncodeByte(bs[0]);
      var tail := RawEncodeBytes(bs[1..]);
      var s := head + tail;
      DecodeRawEncode(bs[1..]);
      if Unreserved(bs[0]) {
        assert s[0] == bs[0] as char && s[1..] == tail;
        assert [bs[0]] + bs[1..] == bs;
      } else {
        assert s[3..] == tail;
        assert 16 * (bs[0] / 16) + bs[0] % 16 == bs[0];
        assert [bs[0]] + bs[1..] == bs;
      }
    }
  }

  lemma {:induction false} SplitWithout(p: string, sep: char)
    requires sep !in p
    ensures Split(p, sep) == [p]
  {
    if p != [] {
      assert p[0] != sep && sep !in p[1..];
      SplitWithout(p[1..], sep);
      assert [p[0]] + p[1..] == p;
    }
  }

  lemma {:induction false} SplitAt(p: string, sep: char, q: string)
    requires sep !in p
    ensures Split(p + [sep] + q, sep) == [p] + Split(q, sep)
  {
    if p == [] {
      assert p + [sep] + q == [sep] + q;
    } else {
      assert (p + [sep] + q)[1..] == p[1..] + [sep] + q;
      assert (p + [sep] + q)[0] == p[0] != sep && sep !in p[1..];
      SplitAt(p[1..], sep, q);
      assert [p[0]] + p[1..] == p;
    }
  }

  lemma {:induction false} SplitJoin(parts: seq<string>, sep: char)
    requires parts != []
    requires forall i :: 0 <= i < |parts| ==> sep !in parts[i]
    ensures Split(Join(parts, sep), sep) == parts
  {
    if |parts| == 1 {
      SplitWithout(parts[0], sep);
    } else {
      SplitAt(parts[0], sep, Join(parts[1..], sep));
      SplitJoin(parts[1..], sep);
    }
  }

  /** `str_replace` applied to each part. */
  function ReplaceEach(parts: seq<string>): (r: seq<string>)
    ensures |r| == |parts|
  {
    if parts == [] then [] else [ReplacePlus(parts[0])] + ReplaceEach(parts[1..])
  }

  lemma {:induction false} ReplacePlusJoin(parts: seq<string>)
    ensures ReplacePlus(Join(parts, '&')) == Join(ReplaceEach(parts), '&')
  {
    if |parts| > 1 {
      ReplacePlusConcat(parts[0] + ['&'], Join(parts[1..], '&'));
      ReplacePlusConcat(parts[0], ['&']);
      assert ReplacePlus(['&']) == ['&'];
      ReplacePlusJoin(parts[1..]);
    }
  }

  /** The value's text, encoded for the final query. */
  lemma EncodedValueRaw(v: Value)
    requires v != Null
    ensures ReplacePlus(EncodedValue(v).value) == RawEncodeBytes(Utf8Bytes(ScalarText(v).value))
  {
    match v
    case Str(s) => ReplacePlusEncodeBytes(Utf8Bytes(s));
    case Bool(b) =>
      assert Utf8Bytes(if b then "1" else "0") == [if b then 49 else 48];
      ReplacePlusSafe(if b then "1" else "0");
    case Int(i) => IntTextRaw(i);
  }

  lemma IntTextRaw(i: int)
    ensures ReplacePlus(IntToString(i)) == RawEncodeBytes(Utf8Bytes(IntToString(i)))
  {
    var s := IntToString(i);
    assert forall j :: 0 <= j < |s| ==> s[j] == '-' || IsDigit(s[j]);
    UnreservedAscii(s);
    ReplacePlusSafe(s);
  }

  /** A text of digits and minus signs encodes as itself. */
  lemma {:induction false} UnreservedAscii(s: string)
    requires forall j :: 0 <= j < |s| ==> s[j] == '-' || IsDigit(s[j])
    ensures RawEncodeBytes(Utf8Bytes(s)) == s
    ensures forall j :: 0 <= j < |s| ==> SafeChar(s[j])
  {
    if s != [] {
      UnreservedAscii(s[1..]);
      assert Utf8Bytes(s) == [s[0] as int] + Utf8Bytes(s[1..]);
    }
  }

  /** The pairs as they stand in the final query. */
  function RawPairs(d: seq<(string, Value)>): seq<string> {
    if d == [] then []
    else
      match ScalarText(d[0].1)
      case None => RawPairs(d[1..])
      case Some(t) => [RawEncodeBytes(Utf8Bytes(d[0].0)) + "=" + RawEncodeBytes(Utf8Bytes(t))] + RawPairs(d[1..])
  }

  lemma {:induction false} ReplacePlusPairs(d: seq<(string, Value)>)
    ensures ReplaceEach(Pairs(d)) == RawPairs(d)
  {
    if d != [] {
      ReplacePlusPairs(d[1..]);
      var k := d[0].0;
      var v := d[0].1;
      if v != Null {
        var e := EncodedValue(v).value;
        ReplacePlusConcat(UrlEncode(k) + "=", e);
        ReplacePlusConcat(UrlEncode(k), "=");
        ReplacePlusEncodeBytes(Utf8Bytes(k));
        EncodedValueRaw(v);
        assert ReplacePlus("=") == "=";
        assert ReplacePlus(Pairs(d)[0]) == RawPairs(d)[0];
      }
    }
  }

  lemma {:induction false} ParseRawPairs(d: seq<(string, Value)>)
    ensures forall i :: 0 <= i < |RawPairs(d)| ==> '&' !in RawPairs(d)[i] && RawPairs(d)[i] != ""
    ensures ParsePairs(RawPairs(d)) == Some(Fields(d))
  {
    if d != [] {
      ParseRawPairs(d[1..]);
      if ScalarText(d[0].1).Some? {
        ParseRawPair(Utf8Bytes(d[0].0), Utf8Bytes(ScalarText(d[0].1).value));
      }
    }
  }

  /** One `key=value` pair reads back as its bytes. */
  lemma ParseRawPair(key: seq<byte>, value: seq<byte>)
    ensures var p := RawEncodeBytes(key) + "=" + RawEncodeBytes(value);
      '&' !in p && p != "" && ParsePair(p) == Some((key, value))
  {
    var k := RawEncodeBytes(key);
    var v := RawEncodeBytes(value);
    var p := k + "=" + v;
    assert p == k + ['='] + v;
    assert '=' !in k && '=' !in v && '&' !in k && '&' !in v;
    SplitAt(k, '=', v);
    SplitWithout(v, '=');
    DecodeRawEncode(key);
    DecodeRawEncode(value);
  }

  lemma JoinEmpty(parts: seq<string>, sep: char)
    requires parts != [] && parts[0] != ""
    ensures Join(parts, sep) != ""
  {
  }

  /** Round trip: reading the relay's query string back yields exactly the
      non-null entries of the merged map, keys and values as their UTF-8
      bytes, in the map's order. */
  lemma QueryRoundTrip(d: seq<(string, Value)>)
    ensures ParseQuery(QueryString(d)) == Some(Fields(d))
  {
    ReplacePlusJoin(Pairs(d));
    ReplacePlusPairs(d);
    ParseRawPairs(d);
    var raw := RawPairs(d);
    assert QueryString(d) == Join(raw, '&');
    if raw != [] {
      JoinEmpty(raw, '&');
      SplitJoin(raw, '&');
    }
  }

  /** The query never contains `+`: every space in a key or a value is
      written `%20`. */
  lemma QueryHasNoPlus(d: seq<(string, Value)>)
    ensures '+' !in QueryString(d)
    ensures forall i :: 0 <= i < |QueryString(d)| ==> SafeChar(QueryString(d)[i]) || QueryString(d)[i] == '&' || QueryString(d)[i] == '='
  {
    ReplacePlusJoin(Pairs(d));
    ReplacePlusPairs(d);
    RawPairsChars(d);
    JoinChars(RawPairs(d));
  }

  predicate QueryChar(c: char) { SafeChar(c) || c == '=' }

  lemma {:induction false} RawPairsChars(d: seq<(string, Value)>)
    ensures forall i, j :: 0 <= i < |RawPairs(d)| && 0 <= j < |RawPairs(d)[i]| ==> QueryChar(RawPairs(d)[i][j])
  {
    if d != [] {
      RawPairsChars(d[1..]);
      if ScalarText(d[0].1).Some? {
        var k := RawEncodeBytes(Utf8Bytes(d[0].0));
        var v := RawEncodeBytes(Utf8Bytes(ScalarText(d[0].1).value));
        var p := k + "=" + v;
        assert forall j :: 0 <= j < |p| ==> p[j] == if j < |k| then k[j] else if j == |k| then '=' else v[j - |k| - 1];
      }
    }
  }

  lemma {:induction false} JoinChars(parts: seq<string>)
    requires forall i, j :: 0 <= i < |parts| && 0 <= j < |parts[i]| ==> QueryChar(parts[i][j])
    ensures forall j :: 0 <= j < |Join(parts, '&')| ==> QueryChar(Join(parts, '&')[j]) || Join(parts, '&')[j] == '&'
  {
    if |parts| > 1 {
      JoinChars(parts[1..]);
      var h := parts[0];
      var t := Join(parts[1..], '&');
      assert forall j :: 0 <= j < |h + ['&'] + t| ==> (h + ['&'] + t)[j] == if j < |h| then h[j] else if j == |h| then '&' else t[j - |h| - 1];
    }
  }
}
