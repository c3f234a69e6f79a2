/** The application/x-www-form-urlencoded format of the WHATWG URL Standard
    (section 5): the serializer `URLSearchParams.toString()` uses (section 5.2)
    and the parser a receiving server applies (section 5.1), both over UTF-8. */
module FormUrlEncoded {
  import opened Text

  type Byte = b: int | 0 <= b < 256

  /** One name/value pair of a query, already decoded. */
  type Param = (string, string)

  predicate IsScalar(cp: int) {
    0 <= cp < 0xD800 || 0xE000 <= cp < 0x110000
  }

  // ---------------------------------------------------------------- UTF-8

  /** The UTF-8 encoding of one code point. */
  function Utf8Char(ch: char): (r: seq<Byte>)
    ensures 1 <= |r| <= 4
    ensures (ch as int < 0x80) == (|r| == 1)
  {
    var cp := ch as int;
    if cp < 0x80 then [cp]
    else if cp < 0x800 then [0xC0 + cp / 64, 0x80 + cp % 64]
    else if cp < 0x10000 then [0xE0 + cp / 4096, 0x80 + cp / 64 % 64, 0x80 + cp % 64]
    else [0xF0 + cp / 262144, 0x80 + cp / 4096 % 64, 0x80 + cp / 64 % 64, 0x80 + cp % 64]
  }

  function Utf8Encode(s: string): seq<Byte>
    decreases |s|
  {
    if s == [] then [] else Utf8Char(s[0]) + Utf8Encode(s[1..])
  }

  predicate IsCont(b: Byte) {
    0x80 <= b < 0xC0
  }

  /** The code point of a well-formed sequence, or U+FFFD for an overlong
      form, a surrogate or a value past U+10FFFF. */
  function CharOr(cp: int, least: int): char {
    if least <= cp && IsScalar(cp) then cp as char else 0xFFFD as char
  }

  /** UTF-8 decode without BOM. A lead byte with the continuation bytes its
      length needs yields one code point; any other byte yields U+FFFD. */
  function Utf8Decode(bs: seq<Byte>): string
    decreases |bs|
  {
    if bs == [] then ""
    else
      var b0 := bs[0];
      if b0 < 0x80 then [b0 as char] + Utf8Decode(bs[1..])
      else if 0xC0 <= b0 < 0xE0 && |bs| >= 2 && IsCont(bs[1]) then
        [CharOr((b0 as int - 0xC0) * 64 + (bs[1] as int - 0x80), 0x80)] + Utf8Decode(bs[2..])
      else if 0xE0 <= b0 < 0xF0 && |bs| >= 3 && IsCont(bs[1]) && IsCont(bs[2]) then
        [CharOr((b0 as int - 0xE0) * 4096 + (bs[1] as int - 0x80) * 64 + (bs[2] as int - 0x80), 0x800)] + Utf8Decode(bs[3..])
      else if 0xF0 <= b0 < 0xF8 && |bs| >= 4 && IsCont(bs[1]) && IsCont(bs[2]) && IsCont(bs[3]) then
        [CharOr((b0 as int - 0xF0) * 262144 + (bs[1] as int - 0x80) * 4096 + (bs[2] as int - 0x80) * 64 + (bs[3] as int - 0x80), 0x10000)]
        + Utf8Decode(bs[4..])
      else [0xFFFD as char] + Utf8Decode(bs[1..])
  }

  lemma Utf8EncodeAppend(a: string, b: string)
    ensures Utf8Encode(a + b) == Utf8Encode(a) + Utf8Encode(b)
    decreases |a|
  {
    if a == [] {
      assert a + b == b;
    } else {
      assert (a + b)[0] == a[0];
      assert (a + b)[1..] == a[1..] + b;
      Utf8EncodeAppend(a[1..], b);
    }
  }

  lemma Utf8EncodeOne(ch: char)
    ensures Utf8Encode([ch]) == Utf8Char(ch)
  {
    assert [ch][1..] == [];
  }

  lemma Digits3(cp: int)
    requires 0 <= cp
    ensures cp == cp / 4096 * 4096 + cp / 64 % 64 * 64 + cp % 64
  {
    assert cp / 4096 == cp / 64 / 64;
  }

  lemma Digits4(cp: int)
    requires 0 <= cp
    ensures cp == cp / 262144 * 262144 + cp / 4096 % 64 * 4096 + cp / 64 % 64 * 64 + cp % 64
  {
    assert cp / 4096 == cp / 64 / 64;
    assert cp / 262144 == cp / 4096 / 64;
  }

  /** The decoder reads one encoded code point back and carries on after it. */
  lemma Utf8CharDecodes(ch: char, rest: seq<Byte>)
    ensures Utf8Decode(Utf8Char(ch) + rest) == [ch] + Utf8Decode(rest)
  {
    var cp := ch as int;
    var bs := Utf8Char(ch) + rest;
    if cp < 0x80 {
      assert bs[1..] == rest;
    } else if cp < 0x800 {
      assert bs[2..] == rest;
      assert (bs[0] as int - 0xC0) * 64 + (bs[1] as int - 0x80) == cp;
    } else if cp < 0x10000 {
      assert bs[3..] == rest;
      Digits3(cp);
      assert (bs[0] as int - 0xE0) * 4096 + (bs[1] as int - 0x80) * 64 + (bs[2] as int - 0x80) == cp;
    } else {
      assert bs[4..] == rest;
      Digits4(cp);
      assert (bs[0] as int - 0xF0) * 262144 + (bs[1] as int - 0x80) * 4096 + (bs[2] as int - 0x80) * 64 + (bs[3] as int - 0x80) == cp;
    }
  }

  /** Decoding the UTF-8 encoding of a string gives back the string. */
  lemma {:induction false} Utf8RoundTrip(s: string)
    ensures Utf8Decode(Utf8Encode(s)) == s
    decreases |s|
  {
    if s != [] {
      Utf8CharDecodes(s[0], Utf8Encode(s[1..]));
      Utf8RoundTrip(s[1..]);
    }
  }

  // ---------------------------------------------------------------- percent-encoding

  /** The bytes the serializer leaves as they are: ASCII alphanumerics, `*`,
      `-`, `.` and `_`. */
  predicate IsUnreservedByte(b: Byte) {
    (0x30 <= b <= 0x39) || (0x41 <= b <= 0x5A) || (0x61 <= b <= 0x7A)
    || b == 0x2A || b == 0x2D || b == 0x2E || b == 0x5F
  }

  /** Upper-case hexadecimal digit. */
  function HexDigit(n: int): char
    requires 0 <= n < 16
  {
    if n < 10 then (0x30 + n) as char else (0x41 + n - 10) as char
  }

  /** A byte as the serializer writes it: `+` for a space, itself when
      unreserved, otherwise `%` and two upper-case hexadecimal digits. */
  function EncodeByte(b: Byte): string {
    if b == 0x20 then "+"
    else if IsUnreservedByte(b) then [b as char]
    else ['%', HexDigit(b / 16), HexDigit(b % 16)]
  }

  function PercentEncode(bs: seq<Byte>): string
    decreases |bs|
  {
    if bs == [] then "" else EncodeByte(bs[0]) + PercentEncode(bs[1..])
  }

  /** The serializer's encoding of a name or a value. */
  function FormEncode(s: string): string {
    PercentEncode(Utf8Encode(s))
  }

  /** The characters an encoded name or value is made of. */
  predicate IsEncodedChar(ch: char) {
    var c := ch as int;
    (0x30 <= c <= 0x39) || (0x41 <= c <= 0x5A) || (0x61 <= c <= 0x7A)
    || c == 0x2A || c == 0x2D || c == 0x2E || c == 0x5F || ch == '+' || ch == '%'
  }

  lemma {:induction false} PercentEncodeChars(bs: seq<Byte>)
    ensures forall ch :: ch in PercentEncode(bs) ==> IsEncodedChar(ch)
    decreases |bs|
  {
    if bs != [] {
      PercentEncodeChars(bs[1..]);
      var b := bs[0];
      if b != 0x20 && !IsUnreservedByte(b) {
        assert IsEncodedChar(HexDigit(b / 16)) && IsEncodedChar(HexDigit(b % 16));
      }
    }
  }

  /** An encoded name or value holds only alphanumerics, `*-._`, `+` and `%`:
      no `&`, `=`, `?` or `#` can appear in it. */
  lemma FormEncodeChars(s: string)
    ensures forall ch :: ch in FormEncode(s) ==> IsEncodedChar(ch)
    ensures '&' !in FormEncode(s) && '=' !in FormEncode(s) && '?' !in FormEncode(s) && '#' !in FormEncode(s)
  {
    PercentEncodeChars(Utf8Encode(s));
  }

  // ---------------------------------------------------------------- parsing

  predicate IsHexByte(b: Byte) {
    (0x30 <= b <= 0x39) || (0x41 <= b <= 0x46) || (0x61 <= b <= 0x66)
  }

  function HexValue(b: Byte): int
    requires IsHexByte(b)
  {
    if b <= 0x39 then b - 0x30 else if b <= 0x46 then b - 0x41 + 10 else b - 0x61 + 10
  }

  /** Percent-decode: `%` followed by two hexadecimal digits becomes the byte
      they spell; every other byte stays. */
  function PercentDecode(bs: seq<Byte>): seq<Byte>
    decreases |bs|
  {
    if bs == [] then []
    else if bs[0] == 0x25 && |bs| >= 3 && IsHexByte(bs[1]) && IsHexByte(bs[2]) then
      [HexValue(bs[1]) * 16 + HexValue(bs[2])] + PercentDecode(bs[3..])
    else [bs[0]] + PercentDecode(bs[1..])
  }

  /** Every 0x2B (`+`) becomes 0x20 (space). */
  function PlusToSpace(bs: seq<Byte>): seq<Byte> {
    seq(|bs|, i requires 0 <= i < |bs| => if bs[i] == 0x2B then 0x20 else bs[i])
  }

  /** The parser's decoding of a name or a value. */
  function FormDecode(s: string): string {
    Utf8Decode(PercentDecode(PlusToSpace(Utf8Encode(s))))
  }

  /** One byte's encoding, decoded, is that byte, whatever follows it. */
  lemma EncodeByteDecodes(b: Byte, rest: seq<Byte>)
    ensures PercentDecode(PlusToSpace(Utf8Encode(EncodeByte(b))) + rest) == [b] + PercentDecode(rest)
  {
    var t := PlusToSpace(Utf8Encode(EncodeByte(b)));
    Utf8EncodeOne(EncodeByte(b)[0]);
    if b == 0x20 {
      assert t == [0x20];
      assert (t + rest)[1..] == rest;
    } else if IsUnreservedByte(b) {
      assert t == [b];
      assert (t + rest)[1..] == rest;
    } else {
      var h, l := HexDigit(b / 16), HexDigit(b % 16);
      Utf8EncodeOne(h);
      Utf8EncodeOne(l);
      Utf8EncodeAppend(['%'], [h]);
      Utf8EncodeAppend(['%', h], [l]);
      assert Utf8Encode(EncodeByte(b)) == [0x25, h as int, l as int];
      assert t == [0x25, h as int, l as int];
      assert HexValue(h as int) == b / 16 && HexValue(l as int) == b % 16;
      assert (t + rest)[3..] == rest;
    }
  }

  lemma PlusToSpaceAppend(a: seq<Byte>, b: seq<Byte>)
    ensures PlusToSpace(a + b) == PlusToSpace(a) + PlusToSpace(b)
  {
  }

  lemma {:induction false} PercentRoundTrip(bs: seq<Byte>)
    ensures PercentDecode(PlusToSpace(Utf8Encode(PercentEncode(bs)))) == bs
    decreases |bs|
  {
    if bs != [] {
      var e, rest := EncodeByte(bs[0]), PercentEncode(bs[1..]);
      Utf8EncodeAppend(e, rest);
      PlusToSpaceAppend(Utf8Encode(e), Utf8Encode(rest));
      EncodeByteDecodes(bs[0], PlusToSpace(Utf8Encode(rest)));
      PercentRoundTrip(bs[1..]);
    }
  }

  /** Decoding an encoded name or value gives it back. */
  lemma FormRoundTrip(s: string)
    ensures FormDecode(FormEncode(s)) == s
  {
    PercentRoundTrip(Utf8Encode(s));
    Utf8RoundTrip(s);
  }

  // ---------------------------------------------------------------- lists of pairs

  function PairString(p: Param): string {
    FormEncode(p.0) + "=" + FormEncode(p.1)
  }

  function PairStrings(ps: seq<Param>): (r: seq<string>)
    ensures |r| == |ps|
    ensures forall i :: 0 <= i < |ps| ==> r[i] == PairString(ps[i])
    decreases |ps|
  {
    if ps == [] then [] else [PairString(ps[0])] + PairStrings(ps[1..])
  }

  /** `URLSearchParams.toString()`: the encoded pairs joined by `&`. */
  function Serialize(ps: seq<Param>): string {
    Join(PairStrings(ps), '&')
  }

  /** One `&`-separated piece: the name up to the first `=`, the value after it
      (empty when there is no `=`), both decoded. */
  function ParsePair(piece: string): Param {
    var name := Split(piece, '=')[0];
    var value := if |name| < |piece| then piece[|name| + 1..] else "";
    (FormDecode(name), FormDecode(value))
  }

  function ParsePieces(pieces: seq<string>): seq<Param>
    decreases |pieces|
  {
    if pieces == [] then []
    else (if pieces[0] == "" then [] else [ParsePair(pieces[0])]) + ParsePieces(pieces[1..])
  }

  /** The form-urlencoded parser: the `&`-separated pieces, empty ones skipped.
      The separators are ASCII, so splitting the string is splitting its bytes. */
  function Parse(q: string): seq<Param> {
    ParsePieces(Split(q, '&'))
  }

  /** A serialized list is empty exactly when the list is. */
  lemma SerializeEmpty(ps: seq<Param>)
    ensures Serialize(ps) == "" <==> ps == []
  {
    if ps != [] {
      var r := PairStrings(ps);
      if |r| == 1 {
        assert Serialize(ps) == r[0];
      } else {
        assert Serialize(ps) == r[0] + ['&'] + Join(r[1..], '&');
      }
      assert |r[0]| > 0;
    }
  }

  /** A pair's encoding splits at its one `=` into the encoded name and value. */
  lemma ParsePairString(p: Param)
    ensures ParsePair(PairString(p)) == p
  {
    var n, v := FormEncode(p.0), FormEncode(p.1);
    FormEncodeChars(p.0);
    FormEncodeChars(p.1);
    var piece := PairString(p);
    assert piece == n + ['='] + v;
    SplitAtFirst(n, '=', v);
    assert piece[|n| + 1..] == v;
    FormRoundTrip(p.0);
    FormRoundTrip(p.1);
  }

  lemma {:induction false} ParsePiecesPairs(ps: seq<Param>)
    ensures ParsePieces(PairStrings(ps)) == ps
    decreases |ps|
  {
    if ps != [] {
      assert PairStrings(ps)[1..] == PairStrings(ps[1..]);
      assert PairString(ps[0]) != "" by { assert |PairString(ps[0])| > 0; }
      ParsePairString(ps[0]);
      ParsePiecesPairs(ps[1..]);
    }
  }

  /** Parsing a serialized list gives back every pair, in order. */
  lemma ParseSerialize(ps: seq<Param>)
    ensures Parse(Serialize(ps)) == ps
  {
    if ps != [] {
      forall i | 0 <= i < |PairStrings(ps)| ensures '&' !in PairStrings(ps)[i] {
        FormEncodeChars(ps[i].0);
        FormEncodeChars(ps[i].1);
      }
      SplitJoin(PairStrings(ps), '&');
      ParsePiecesPairs(ps);
    }
  }
}
