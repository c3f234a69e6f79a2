/** The JavaScript values a skip-range bound can hold, the `Number(string)`
    conversion (StringToNumber of ECMAScript 2024, section 7.1.4.1.1) over exact
    reals, and the relational comparisons `t >= b` and `t < b` of a finite
    playback time t against such a value. */
module JsNumber {
  import opened Wrappers
  import opened Text

  /** A number, its two infinities, NaN, or `undefined` (what array
      destructuring yields for a missing element). */
  datatype JsValue = Num(v: real) | PosInfinity | NegInfinity | NaN | Undefined

  /** StrWhiteSpaceChar: the white space and line terminator characters that
      `Number` trims (the Zs category written out). */
  predicate IsStrWhiteSpace(ch: char) {
    var c := ch as int;
    c == 0x09 || c == 0x0B || c == 0x0C || c == 0x20 || c == 0xA0 || c == 0xFEFF
    || c == 0x0A || c == 0x0D || c == 0x2028 || c == 0x2029
    || c == 0x1680 || (0x2000 <= c <= 0x200A) || c == 0x202F || c == 0x205F || c == 0x3000
  }

  /** The number of white space characters at the start of s. */
  function LeadingSpace(s: string): (k: nat)
    ensures k <= |s|
    ensures forall i :: 0 <= i < k ==> IsStrWhiteSpace(s[i])
    ensures k < |s| ==> !IsStrWhiteSpace(s[k])
    decreases |s|
  {
    if s != [] && IsStrWhiteSpace(s[0]) then 1 + LeadingSpace(s[1..]) else 0
  }

  /** r is s with its leading and trailing white space removed: it starts
      after the leading white space, only white space follows it, and it
      neither starts nor ends with white space. */
  predicate Stripped(s: string, r: string) {
    var k := LeadingSpace(s);
    && k + |r| <= |s| && r == s[k..k + |r|]
    && (forall i :: k + |r| <= i < |s| ==> IsStrWhiteSpace(s[i]))
    && (r != [] ==> !IsStrWhiteSpace(r[0]) && !IsStrWhiteSpace(r[|r| - 1]))
  }

  /** `String.prototype.trim` as `Number` applies it. */
  function Trim(s: string): (r: string)
    ensures Stripped(s, r)
    decreases |s|
  {
    if s == [] then s
    else if IsStrWhiteSpace(s[0]) then
      var r := Trim(s[1..]);
      TrimFront(s, r);
      r
    else if IsStrWhiteSpace(s[|s| - 1]) then
      var r := Trim(s[..|s| - 1]);
      TrimBack(s, r);
      r
    else
      TrimNone(s);
      s
  }

  lemma TrimFront(s: string, r: string)
    requires s != [] && IsStrWhiteSpace(s[0]) && Stripped(s[1..], r)
    ensures Stripped(s, r)
  {
    var t, k := s[1..], LeadingSpace(s[1..]);
    assert LeadingSpace(s) == k + 1;
    assert t[k..k + |r|] == s[k + 1..k + 1 + |r|];
    forall i | k + 1 + |r| <= i < |s| ensures IsStrWhiteSpace(s[i]) {
      assert s[i] == t[i - 1];
    }
  }

  lemma TrimBack(s: string, r: string)
    requires s != [] && !IsStrWhiteSpace(s[0]) && IsStrWhiteSpace(s[|s| - 1]) && Stripped(s[..|s| - 1], r)
    ensures Stripped(s, r)
  {
    var t := s[..|s| - 1];
    assert LeadingSpace(s) == 0;
    assert LeadingSpace(t) == 0 by {
      if t != [] { assert t[0] == s[0]; }
    }
    assert t[0..|r|] == s[0..|r|];
    forall i | |r| <= i < |s| ensures IsStrWhiteSpace(s[i]) {
      if i < |s| - 1 { assert s[i] == t[i]; }
    }
  }

  lemma TrimNone(s: string)
    requires s != [] && !IsStrWhiteSpace(s[0]) && !IsStrWhiteSpace(s[|s| - 1])
    ensures Stripped(s, s)
  {
    assert LeadingSpace(s) == 0;
    assert s[0..|s|] == s;
  }

  /** Stripping has one answer: two strings that both strip s are equal. */
  lemma StrippedUnique(s: string, r1: string, r2: string)
    requires Stripped(s, r1) && Stripped(s, r2)
    ensures r1 == r2
  {
    var k := LeadingSpace(s);
    // The last character of a non-empty result is not white space, so it lies
    // before the all-white-space tail the other result leaves.
    assert r1 != [] ==> r1[|r1| - 1] == s[k + |r1| - 1] && |r1| <= |r2|;
    assert r2 != [] ==> r2[|r2| - 1] == s[k + |r2| - 1] && |r2| <= |r1|;
  }

  /** A string without white space is its own trim. */
  lemma TrimNoSpace(s: string)
    requires forall i :: 0 <= i < |s| ==> !IsStrWhiteSpace(s[i])
    ensures Trim(s) == s
  {
    var r := Trim(s);
    if s != [] {
      assert LeadingSpace(s) == 0;
    }
  }

  function Pow10(n: nat): (r: real)
    ensures r >= 1.0
  {
    if n == 0 then 1.0 else 10.0 * Pow10(n - 1)
  }

  /** Value of a digit in base 2, 8, 10 or 16, or none. */
  function DigitIn(base: nat, ch: char): Option<nat> {
    var d :=
      if '0' <= ch <= '9' then ch as int - '0' as int
      else if 'a' <= ch <= 'f' then ch as int - 'a' as int + 10
      else if 'A' <= ch <= 'F' then ch as int - 'A' as int + 10
      else 16;
    if d < base then Some(d as nat) else None
  }

  /** Value of a non-empty digit string in a base, or none if a character is
      not a digit of that base. */
  function ValueIn(base: nat, s: string): Option<nat>
    decreases |s|
  {
    if s == [] then None
    else
      var d := DigitIn(base, s[|s| - 1]);
      if d.None? then None
      else if |s| == 1 then d
      else
        var hi := ValueIn(base, s[..|s| - 1]);
        if hi.None? then None else Some(hi.value * base + d.value)
  }

  /** NonDecimalIntegerLiteral: `0b…`, `0o…` or `0x…` (either case), unsigned. */
  function NonDecimal(t: string): Option<nat> {
    if |t| >= 3 && t[0] == '0' then
      if t[1] == 'x' || t[1] == 'X' then ValueIn(16, t[2..])
      else if t[1] == 'o' || t[1] == 'O' then ValueIn(8, t[2..])
      else if t[1] == 'b' || t[1] == 'B' then ValueIn(2, t[2..])
      else None
    else None
  }

  /** Index of the first character satisfying one of two choices, or |s|. */
  function IndexOf2(s: string, a: char, b: char): (k: nat)
    ensures k <= |s|
    ensures forall i :: 0 <= i < k ==> s[i] != a && s[i] != b
    ensures k < |s| ==> s[k] == a || s[k] == b
    decreases |s|
  {
    if s == [] then 0 else if s[0] == a || s[0] == b then 0 else 1 + IndexOf2(s[1..], a, b)
  }

  /** Value of `DecimalDigits`, `DecimalDigits . DecimalDigits?` or
      `. DecimalDigits`. */
  function Mantissa(m: string): Option<real> {
    var dot := IndexOf2(m, '.', '.');
    var whole := m[..dot];
    var frac := if dot < |m| then m[dot + 1..] else "";
    if |whole| + |frac| == 0 || !AllDigits(whole) || !AllDigits(frac) then None
    else Some(DigitsValue(whole) as real + DigitsValue(frac) as real / Pow10(|frac|))
  }

  /** Value of the digits after `e`/`E`, with an optional sign. */
  function Exponent(e: string): Option<int> {
    var sign := if e != [] && e[0] == '-' then -1 else 1;
    var digits := if e != [] && (e[0] == '+' || e[0] == '-') then e[1..] else e;
    if digits == [] || !AllDigits(digits) then None else Some(sign * DigitsValue(digits))
  }

  /** StrUnsignedDecimalLiteral: `Infinity`, or a mantissa with an optional
      exponent part. */
  function UnsignedDecimal(u: string): JsValue {
    if u == "Infinity" then PosInfinity
    else
      var k := IndexOf2(u, 'e', 'E');
      var m := Mantissa(u[..k]);
      var e := if k < |u| then Exponent(u[k + 1..]) else Some(0);
      if m.None? || e.None? then NaN
      else if e.value >= 0 then Num(m.value * Pow10(e.value))
      else Num(m.value / Pow10(-e.value))
  }

  function Negate(x: JsValue): JsValue {
    match x
    case Num(v) => Num(-v)
    case PosInfinity => NegInfinity
    case NegInfinity => PosInfinity
    case _ => x
  }

  /** `Number(s)`: never throws and never yields `undefined`; an empty or
      all-white-space string is 0, anything that is not a numeric literal is NaN. */
  function ToNumber(s: string): (r: JsValue)
    ensures !r.Undefined?
    ensures Trim(s) == "" ==> r == Num(0.0)
  {
    var t := Trim(s);
    if t == "" then Num(0.0)
    else
      var nd := NonDecimal(t);
      if nd.Some? then Num(nd.value as real)
      else if t[0] == '+' then UnsignedDecimal(t[1..])
      else if t[0] == '-' then Negate(UnsignedDecimal(t[1..]))
      else UnsignedDecimal(t)
  }

  /** `t >= b` for a finite time t: false against NaN and `undefined`. */
  predicate AtLeast(t: real, b: JsValue) {
    match b
    case Num(v) => t >= v
    case NegInfinity => true
    case _ => false
  }

  /** `t < b` for a finite time t: false against NaN and `undefined`. */
  predicate Below(t: real, b: JsValue) {
    match b
    case Num(v) => t < v
    case PosInfinity => true
    case _ => false
  }

  /** A string of decimal digits converts to its value, leading zeros and all
      (so `Number("010")` is 10, not an octal 8). */
  lemma DigitsToNumber(s: string)
    requires |s| >= 1 && AllDigits(s)
    ensures ToNumber(s) == Num(DigitsValue(s) as real)
  {
    DigitsTrim(s);
    DigitsNotNonDecimal(s);
    assert s[0] != '+' && s[0] != '-' by { assert IsDigit(s[0]); }
    assert ToNumber(s) == UnsignedDecimal(s);
    DigitsUnsigned(s);
  }

  lemma DigitsTrim(s: string)
    requires AllDigits(s)
    ensures Trim(s) == s
  {
    forall i | 0 <= i < |s| ensures !IsStrWhiteSpace(s[i]) {
      assert IsDigit(s[i]);
    }
    TrimNoSpace(s);
  }

  lemma DigitsNotNonDecimal(s: string)
    requires |s| >= 1 && AllDigits(s)
    ensures NonDecimal(s).None?
  {
    if |s| >= 3 && s[0] == '0' {
      assert IsDigit(s[1]);
    }
  }

  /** A string without either character has no index of them. */
  lemma IndexOf2Absent(s: string, a: char, b: char)
    requires forall i :: 0 <= i < |s| ==> s[i] != a && s[i] != b
    ensures IndexOf2(s, a, b) == |s|
  {
  }

  lemma DigitsUnsigned(s: string)
    requires |s| >= 1 && AllDigits(s)
    ensures UnsignedDecimal(s) == Num(DigitsValue(s) as real)
  {
    assert s != "Infinity" by { assert IsDigit(s[0]); }
    forall i | 0 <= i < |s| ensures s[i] != 'e' && s[i] != 'E' {
      assert IsDigit(s[i]);
    }
    IndexOf2Absent(s, 'e', 'E');
    assert s[..|s|] == s;
    DigitsMantissa(s);
    assert Pow10(0) == 1.0;
  }

  lemma DigitsMantissa(s: string)
    requires |s| >= 1 && AllDigits(s)
    ensures Mantissa(s) == Some(DigitsValue(s) as real)
  {
    forall i | 0 <= i < |s| ensures s[i] != '.' {
      assert IsDigit(s[i]);
    }
    IndexOf2Absent(s, '.', '.');
    var dot := IndexOf2(s, '.', '.');
    assert dot == |s| && s[..dot] == s;
    MantissaWhole(s, dot);
  }

  /** A mantissa without a fraction part is its integer value. */
  lemma MantissaWhole(s: string, dot: nat)
    requires |s| >= 1 && AllDigits(s)
    requires dot == IndexOf2(s, '.', '.') == |s| && s[..dot] == s
    ensures Mantissa(s) == Some(DigitsValue(s) as real)
  {
    var none: string := "";
    assert AllDigits(none) && DigitsValue(none) == 0 && Pow10(|none|) == 1.0;
    assert DigitsValue(s[..dot]) == DigitsValue(s);
    assert DigitsValue(none) as real / Pow10(|none|) == 0.0;
  }

  /** The decimal rendering of a natural number converts back to it. */
  lemma NatToStringToNumber(n: nat)
    ensures ToNumber(NatToString(n)) == Num(n as real)
  {
    DigitsToNumber(NatToString(n));
    DigitsValueNatToString(n);
  }

  /** A NaN or `undefined` bound fails both comparisons, whatever the time. */
  lemma NotANumberNeverCompares(t: real, b: JsValue)
    requires b.NaN? || b.Undefined?
    ensures !AtLeast(t, b) && !Below(t, b)
  {
  }
}
