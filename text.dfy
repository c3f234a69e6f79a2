/** String helpers with the meaning JavaScript gives them: `String.prototype.split`
    with a one-character separator, `includes`, decimal rendering of integers
    (template literals) and `toLowerCase` on ASCII letters. */
module Text {

  /** `s.includes(t)`: t occurs in s as a contiguous piece. */
  predicate Contains(s: string, t: string)
    decreases |s|
  {
    t <= s || (s != [] && Contains(s[1..], t))
  }

  /** Containing a one-character string is containing that character. */
  lemma {:induction false} ContainsChar(s: string, c: char)
    ensures Contains(s, [c]) <==> c in s
    decreases |s|
  {
    if s != [] {
      ContainsChar(s[1..], c);
      assert s == [s[0]] + s[1..];
    }
  }

  /** t occurs in s wherever s continues with t. */
  lemma {:induction false} ContainsAt(s: string, t: string, k: int)
    requires 0 <= k <= |s| && t <= s[k..]
    ensures Contains(s, t)
    decreases k
  {
    if k == 0 {
      assert s[k..] == s;
    } else {
      assert s[1..][k - 1..] == s[k..];
      ContainsAt(s[1..], t, k - 1);
    }
  }

  /** A string never contains a longer one. */
  lemma {:induction false} NotContainsLonger(s: string, t: string)
    requires |s| < |t|
    ensures !Contains(s, t)
    decreases |s|
  {
    if s != [] {
      NotContainsLonger(s[1..], t);
    }
  }

  /** `s.split(c)` for a one-character separator c: the maximal pieces between
      occurrences of c, in order; the empty string splits into one empty piece. */
  function Split(s: string, c: char): (r: seq<string>)
    ensures |r| >= 1
    decreases |s|
  {
    if s == [] then [""]
    else
      var rest := Split(s[1..], c);
      if s[0] == c then [""] + rest else [[s[0]] + rest[0]] + rest[1..]
  }

  /** `ps.join(c)`: the pieces with one c between neighbours. */
  function Join(ps: seq<string>, c: char): string
    decreases |ps|
  {
    if ps == [] then ""
    else if |ps| == 1 then ps[0]
    else ps[0] + [c] + Join(ps[1..], c)
  }

  /** Number of occurrences of c in s. */
  function Count(s: string, c: char): nat {
    if s == [] then 0 else (if s[0] == c then 1 else 0) + Count(s[1..], c)
  }

  /** Splitting and joining again gives back the string. */
  lemma {:induction false} JoinSplit(s: string, c: char)
    ensures Join(Split(s, c), c) == s
    decreases |s|
  {
    if s != [] {
      JoinSplit(s[1..], c);
      var rest := Split(s[1..], c);
      if s[0] == c {
        assert Split(s, c) == [""] + rest;
        assert ([""] + rest)[1..] == rest;
      } else {
        if |rest| == 1 {
          assert Split(s, c) == [[s[0]] + rest[0]];
        } else {
          var r := Split(s, c);
          assert r == [[s[0]] + rest[0]] + rest[1..];
          assert r[1..] == rest[1..];
          assert Join(rest, c) == rest[0] + [c] + Join(rest[1..], c);
        }
      }
    }
  }

  /** No piece of a split contains the separator. */
  lemma {:induction false} SplitPiecesFree(s: string, c: char)
    ensures forall i :: 0 <= i < |Split(s, c)| ==> c !in Split(s, c)[i]
    decreases |s|
  {
    if s != [] {
      SplitPiecesFree(s[1..], c);
    }
  }

  /** A string splits into one more piece than it has separators. */
  lemma {:induction false} SplitCount(s: string, c: char)
    ensures |Split(s, c)| == Count(s, c) + 1
    decreases |s|
  {
    if s != [] {
      SplitCount(s[1..], c);
    }
  }

  /** Joining pieces free of the separator and splitting again gives back the
      pieces: the parse of a separated list recovers exactly its items. */
  lemma {:induction false} SplitJoin(ps: seq<string>, c: char)
    requires |ps| >= 1
    requires forall i :: 0 <= i < |ps| ==> c !in ps[i]
    ensures Split(Join(ps, c), c) == ps
    decreases |ps|, |ps[0]|
  {
    if |ps| == 1 {
      SplitNoSeparator(ps[0], c);
    } else if ps[0] == [] {
      var tail := Join(ps[1..], c);
      assert Join(ps, c) == [c] + tail;
      assert ([c] + tail)[1..] == tail;
      SplitJoin(ps[1..], c);
      assert [""] + ps[1..] == ps;
    } else {
      var x := ps[0][0];
      var ps' := [ps[0][1..]] + ps[1..];
      assert ps'[1..] == ps[1..];
      forall i | 0 <= i < |ps'| ensures c !in ps'[i] {
        if i == 0 { assert ps[0] == [x] + ps[0][1..]; }
      }
      SplitJoin(ps', c);
      var j := Join(ps, c);
      assert j == ps[0] + [c] + Join(ps[1..], c);
      assert Join(ps', c) == ps[0][1..] + [c] + Join(ps[1..], c);
      assert j == [x] + Join(ps', c);
      assert j[1..] == Join(ps', c);
      assert x != c by { assert x == ps[0][0]; }
      assert Split(j, c) == [[x] + ps'[0]] + ps'[1..];
      assert [x] + ps'[0] == ps[0];
      assert [ps[0]] + ps[1..] == ps;
    }
  }

  /** A string without the separator splits into itself. */
  lemma {:induction false} SplitNoSeparator(s: string, c: char)
    requires c !in s
    ensures Split(s, c) == [s]
    decreases |s|
  {
    if s != [] {
      assert c !in s[1..] by {
        forall k | 0 <= k < |s[1..]| ensures s[1..][k] != c { assert s[1..][k] == s[k + 1]; }
      }
      SplitNoSeparator(s[1..], c);
      assert s[0] != c;
      assert [s[0]] + s[1..] == s;
    }
  }

  /** The first piece of a split is the longest prefix without the separator. */
  lemma {:induction false} SplitFirstPiece(s: string, c: char)
    ensures var p := Split(s, c)[0];
      && p <= s
      && c !in p
      && (|p| < |s| ==> s[|p|] == c)
    decreases |s|
  {
    if s != [] {
      SplitFirstPiece(s[1..], c);
    }
  }

  /** Before the first separator is exactly the text up to it. */
  lemma {:induction false} SplitAtFirst(a: string, c: char, b: string)
    requires c !in a
    ensures Split(a + [c] + b, c)[0] == a
    decreases |a|
  {
    var s := a + [c] + b;
    if a == [] {
      assert s == [c] + b && s[1..] == b;
    } else {
      assert s[0] == a[0] && s[1..] == a[1..] + [c] + b;
      SplitAtFirst(a[1..], c, b);
      assert [a[0]] + a[1..] == a;
    }
  }

  predicate IsDigit(ch: char) {
    '0' <= ch <= '9'
  }

  function DigitValue(ch: char): nat
    requires IsDigit(ch)
  {
    (ch as int - '0' as int) as nat
  }

  /** The decimal digit for d. */
  function DigitChar(d: nat): (ch: char)
    requires d < 10
    ensures IsDigit(ch) && DigitValue(ch) == d
  {
    ('0' as int + d) as char
  }

  predicate AllDigits(s: string) {
    forall i :: 0 <= i < |s| ==> IsDigit(s[i])
  }

  /** The value of a string of decimal digits, most significant first. */
  function DigitsValue(s: string): nat
    requires AllDigits(s)
    decreases |s|
  {
    if s == [] then 0 else DigitsValue(s[..|s| - 1]) * 10 + DigitValue(s[|s| - 1])
  }

  /** Decimal rendering of a natural number, as `${n}` gives it. */
  function NatToString(n: nat): (s: string)
    ensures |s| >= 1 && AllDigits(s)
    ensures (n == 0) == (s == "0")
    ensures n > 0 ==> s[0] != '0'
    ensures n < 10 <==> |s| == 1
  {
    if n < 10 then [DigitChar(n)] else NatToString(n / 10) + [DigitChar(n % 10)]
  }

  /** Decimal rendering of an integer, with a leading minus when negative. */
  function IntToString(n: int): string {
    if n < 0 then "-" + NatToString(-n) else NatToString(n)
  }

  /** Reading a rendered natural number back gives the number. */
  lemma {:induction false} DigitsValueNatToString(n: nat)
    ensures DigitsValue(NatToString(n)) == n
  {
    if n >= 10 {
      DigitsValueNatToString(n / 10);
      var s := NatToString(n);
      assert s[..|s| - 1] == NatToString(n / 10);
    }
  }

  /** ASCII upper-case letters become lower-case; every other character stays. */
  function LowerChar(ch: char): char {
    if 'A' <= ch <= 'Z' then (ch as int + 32) as char else ch
  }

  /** `s.toLowerCase()`, restricted to the ASCII letters: no upper-case ASCII
      letter is left, each one becomes its lower-case partner, and every other
      character stays where and what it was. */
  function ToLower(s: string): (r: string)
    ensures |r| == |s|
    ensures forall i :: 0 <= i < |r| ==> !('A' <= r[i] <= 'Z')
    ensures forall i :: 0 <= i < |s| && 'A' <= s[i] <= 'Z' ==> r[i] as int == s[i] as int + 32
    ensures forall i :: 0 <= i < |s| && !('A' <= s[i] <= 'Z') ==> r[i] == s[i]
  {
    seq(|s|, i requires 0 <= i < |s| => LowerChar(s[i]))
  }

  /** Lower-casing twice is lower-casing once. */
  lemma ToLowerIdempotent(s: string)
    ensures ToLower(ToLower(s)) == ToLower(s)
  {
  }
}
