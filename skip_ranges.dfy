/** Skip ranges: the compact `start-end,start-end,…` string, the precedence
    between the JSON skip list and that string, and the query for the range that
    covers the playback position. */
module SkipRanges {
  import opened Wrappers
  import opened Text
  import opened JsNumber

  /** `{start, end, name?}`. The bounds are whatever JavaScript put there: a
      number, NaN, or `undefined` when a piece had no `-`. */
  datatype SkipRange = SkipRange(start: JsValue, end: JsValue, name: Option<string>)

  /** One comma-separated piece: `const [start, end] = piece.split("-").map(Number)`.
      A third and later part is ignored; a missing second part leaves `end`
      undefined. */
  function ParseRange(piece: string): SkipRange {
    var parts := Split(piece, '-');
    SkipRange(ToNumber(parts[0]), if |parts| >= 2 then ToNumber(parts[1]) else Undefined, None)
  }

  /** `pieces.map(ParseRange)`. */
  function ParsePieces(pieces: seq<string>): (r: seq<SkipRange>)
    ensures |r| == |pieces|
    ensures forall i :: 0 <= i < |pieces| ==> r[i] == ParseRange(pieces[i])
    decreases |pieces|
  {
    if pieces == [] then [] else [ParseRange(pieces[0])] + ParsePieces(pieces[1..])
  }

  /** `skipRanges.split(",").map(…)`. */
  function ParseSkipRanges(s: string): seq<SkipRange> {
    ParsePieces(Split(s, ','))
  }

  /** The skip-inputs effect: non-empty `skipData` wins; otherwise a non-empty
      `skipRanges` string is parsed; otherwise the list stays as it was. */
  function SkipListFrom(skipData: seq<SkipRange>, skipString: string, current: seq<SkipRange>)
    : seq<SkipRange>
  {
    if |skipData| > 0 then skipData
    else if skipString != "" then ParseSkipRanges(skipString)
    else current
  }

  /** `t >= range.start && t < range.end`: a half-open interval. */
  predicate Covers(r: SkipRange, t: real) {
    AtLeast(t, r.start) && Below(t, r.end)
  }

  /** `list.find(range => Covers(range, t)) || null`. */
  function ActiveRange(list: seq<SkipRange>, t: real): Option<SkipRange>
    decreases |list|
  {
    if list == [] then None
    else if Covers(list[0], t) then Some(list[0])
    else ActiveRange(list[1..], t)
  }

  /** The active range is the first range in list order that covers t, and
      there is none exactly when no range covers t. */
  lemma {:induction false} ActiveRangeIsFirstCovering(list: seq<SkipRange>, t: real)
    ensures ActiveRange(list, t).None? <==> (forall j :: 0 <= j < |list| ==> !Covers(list[j], t))
    ensures ActiveRange(list, t).Some? ==>
      exists i :: 0 <= i < |list| && list[i] == ActiveRange(list, t).value
        && Covers(list[i], t) && (forall j :: 0 <= j < i ==> !Covers(list[j], t))
    decreases |list|
  {
    if list != [] && !Covers(list[0], t) {
      ActiveRangeIsFirstCovering(list[1..], t);
      var a := ActiveRange(list, t);
      if a.Some? {
        var i :| 0 <= i < |list[1..]| && list[1..][i] == a.value
          && Covers(list[1..][i], t) && (forall j :: 0 <= j < i ==> !Covers(list[1..][j], t));
        assert list[i + 1] == a.value;
        forall j | 0 <= j < i + 1 ensures !Covers(list[j], t) {
          if j > 0 { assert list[j] == list[1..][j - 1]; }
        }
      } else {
        forall j | 0 <= j < |list| ensures !Covers(list[j], t) {
          if j > 0 { assert list[j] == list[1..][j - 1]; }
        }
      }
    }
  }

  /** Whenever the query yields a range it covers t, so neither of its bounds
      is NaN or undefined. */
  lemma {:induction false} ActiveRangeCovers(list: seq<SkipRange>, t: real)
    requires ActiveRange(list, t).Some?
    ensures Covers(ActiveRange(list, t).value, t)
    ensures var r := ActiveRange(list, t).value;
      !r.start.NaN? && !r.start.Undefined? && !r.end.NaN? && !r.end.Undefined?
    decreases |list|
  {
    if !Covers(list[0], t) {
      ActiveRangeCovers(list[1..], t);
    }
  }

  /** At its own end a range is not active: after a skip to `end` the same
      range does not trigger again. */
  lemma NoRetriggerAtEnd(list: seq<SkipRange>, r: SkipRange, e: real)
    requires r.end == Num(e)
    ensures ActiveRange(list, e) != Some(r)
  {
    if ActiveRange(list, e) == Some(r) {
      ActiveRangeCovers(list, e);
    }
  }

  /** The compact string gives exactly one range per comma-separated piece, in
      order: one more range than there are commas. */
  lemma ParseSkipRangesPieces(s: string)
    ensures |ParseSkipRanges(s)| == Count(s, ',') + 1
    ensures forall i :: 0 <= i < |Split(s, ',')| ==>
      ParseSkipRanges(s)[i] == ParseRange(Split(s, ',')[i])
  {
    SplitCount(s, ',');
  }

  /** A piece `a-b` with both numbers written in decimal parses to the range a–b. */
  lemma ParseRangeDigits(a: nat, b: nat)
    ensures ParseRange(NatToString(a) + "-" + NatToString(b))
      == SkipRange(Num(a as real), Num(b as real), None)
  {
    var sa, sb := NatToString(a), NatToString(b);
    assert '-' !in sa by { forall i | 0 <= i < |sa| ensures sa[i] != '-' { assert IsDigit(sa[i]); } }
    assert '-' !in sb by { forall i | 0 <= i < |sb| ensures sb[i] != '-' { assert IsDigit(sb[i]); } }
    assert Join([sa, sb], '-') == sa + "-" + sb by {
      assert Join([sa, sb], '-') == sa + ['-'] + Join([sb], '-');
    }
    SplitJoin([sa, sb], '-');
    NatToStringToNumber(a);
    NatToStringToNumber(b);
  }

  /** A piece with nothing before its `-` starts at 0, since `Number("")` is
      0: `-b` is the range from 0 to b, and covers every time in between. */
  lemma ParseRangeOpenStart(b: nat)
    ensures ParseRange("-" + NatToString(b)) == SkipRange(Num(0.0), Num(b as real), None)
    ensures forall t: real :: 0.0 <= t < b as real ==> Covers(ParseRange("-" + NatToString(b)), t)
  {
    var sb := NatToString(b);
    assert '-' !in sb by { forall i | 0 <= i < |sb| ensures sb[i] != '-' { assert IsDigit(sb[i]); } }
    assert Join(["", sb], '-') == "-" + sb by {
      assert Join(["", sb], '-') == "" + ['-'] + Join([sb], '-');
    }
    SplitJoin(["", sb], '-');
    assert Trim("") == "";
    NatToStringToNumber(b);
  }

  /** `"5-10,20-25"` parses to the ranges 5–10 and 20–25. */
  lemma ExampleTwoRanges()
    ensures ParseSkipRanges("5-10,20-25")
      == [SkipRange(Num(5.0), Num(10.0), None), SkipRange(Num(20.0), Num(25.0), None)]
  {
    var p1 := NatToString(5) + "-" + NatToString(10);
    var p2 := NatToString(20) + "-" + NatToString(25);
    assert p1 == "5-10";
    assert p2 == "20-25";
    assert Join([p1, p2], ',') == "5-10,20-25" by {
      assert Join([p1, p2], ',') == p1 + [','] + Join([p2], ',');
    }
    assert ',' !in p1 && ',' !in p2;
    SplitJoin([p1, p2], ',');
    ParseRangeDigits(5, 10);
    ParseRangeDigits(20, 25);
  }

  /** `"5-10,bad"` does not fail as a whole: the malformed piece becomes a range
      with a NaN start and an undefined end, which never covers any time. */
  lemma ExampleMalformedPiece()
    ensures ParseSkipRanges("5-10,bad")
      == [SkipRange(Num(5.0), Num(10.0), None), SkipRange(NaN, Undefined, None)]
    ensures forall t: real :: !Covers(ParseSkipRanges("5-10,bad")[1], t)
  {
    SplitExampleMalformed();
    FiveToTen();
    ParseRangeBad();
    ParsePiecesPair("5-10", "bad");
  }

  lemma ParsePiecesPair(a: string, b: string)
    ensures ParsePieces([a, b]) == [ParseRange(a), ParseRange(b)]
  {
  }

  lemma FiveToTen()
    ensures ParseRange("5-10") == SkipRange(Num(5.0), Num(10.0), None)
  {
    ParseRangeDigits(5, 10);
    assert NatToString(5) + "-" + NatToString(10) == "5-10";
  }

  lemma SplitExampleMalformed()
    ensures Split("5-10,bad", ',') == ["5-10", "bad"]
  {
    var pieces := ["5-10", "bad"];
    assert Join(pieces, ',') == "5-10,bad" by {
      assert Join(pieces, ',') == "5-10" + [','] + Join(["bad"], ',');
    }
    assert ',' !in "5-10" && ',' !in "bad";
    SplitJoin(pieces, ',');
  }

  lemma ParseRangeBad()
    ensures ParseRange("bad") == SkipRange(NaN, Undefined, None)
  {
    assert '-' !in "bad";
    SplitNoSeparator("bad", '-');
    BadIsNaN();
  }

  lemma BadIsNaN()
    ensures ToNumber("bad") == NaN
  {
    assert Trim("bad") == "bad";
    assert NonDecimal("bad").None?;
    UnsignedBad();
  }

  lemma UnsignedBad()
    ensures UnsignedDecimal("bad") == NaN
  {
    assert "bad" != "Infinity";
    IndexOf2Absent("bad", 'e', 'E');
    assert "bad"[..3] == "bad";
    IndexOf2Absent("bad", '.', '.');
    assert !AllDigits("bad") by { assert !IsDigit("bad"[0]); }
    assert Mantissa("bad").None?;
  }
}
