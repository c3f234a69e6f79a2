/** Transport arithmetic: the keyboard volume and speed steps with their
    clamps, and the `m:ss` time display, all over exact reals. */
module Transport {
  import opened Wrappers
  import opened Text

  /** Arrow-up: `Math.min(1, volume + 0.1)`. */
  function VolumeUp(v: real): (r: real)
    ensures r <= 1.0
    ensures v <= 0.9 ==> r == v + 0.1
    ensures 0.0 <= v <= 1.0 ==> v <= r
  {
    if v + 0.1 < 1.0 then v + 0.1 else 1.0
  }

  /** Arrow-down: `Math.max(0, volume - 0.1)`. */
  function VolumeDown(v: real): (r: real)
    ensures r >= 0.0
    ensures v >= 0.1 ==> r == v - 0.1
    ensures 0.0 <= v <= 1.0 ==> r <= v
  {
    if v - 0.1 > 0.0 then v - 0.1 else 0.0
  }

  /** Shift+`>`: `Math.min(2, speed + 0.25)`. */
  function SpeedUp(s: real): (r: real)
    ensures r <= 2.0
    ensures s <= 1.75 ==> r == s + 0.25
    ensures 0.25 <= s <= 2.0 ==> 0.25 <= r <= 2.0
  {
    if s + 0.25 < 2.0 then s + 0.25 else 2.0
  }

  /** Shift+`<`: `Math.max(0.25, speed - 0.25)`. */
  function SpeedDown(s: real): (r: real)
    ensures r >= 0.25
    ensures s >= 0.5 ==> r == s - 0.25
    ensures 0.25 <= s <= 2.0 ==> 0.25 <= r <= 2.0
  {
    if s - 0.25 > 0.25 then s - 0.25 else 0.25
  }

  /** On the quarter steps 1/4 … 8/4 the speed keys move one step and stop at
      the ends, so the speed never leaves the grid. */
  lemma SpeedStepsOnQuarters(k: int)
    requires 1 <= k <= 8
    ensures SpeedUp(k as real / 4.0) == (if k < 8 then k + 1 else 8) as real / 4.0
    ensures SpeedDown(k as real / 4.0) == (if k > 1 then k - 1 else 1) as real / 4.0
  {
  }

  /** The speeds the settings menu offers, in menu order. */
  const SpeedChoices: seq<real> := [0.5, 0.75, 1.0, 1.25, 1.5, 1.75, 2.0]

  /** Every menu speed is a quarter step from 2/4 to 8/4, so the speed keys
      that follow a menu choice stay on the grid. */
  lemma SpeedChoicesOnQuarters(i: nat)
    requires i < |SpeedChoices|
    ensures 0.25 <= SpeedChoices[i] <= 2.0
    ensures SpeedChoices[i] == (i + 2) as real / 4.0
  {
  }

  /** Volume stays in [0, 1] under either arrow key. */
  lemma VolumeKeysStayInRange(v: real)
    requires 0.0 <= v <= 1.0
    ensures 0.0 <= VolumeUp(v) <= 1.0 && 0.0 <= VolumeDown(v) <= 1.0
  {
  }

  /** JavaScript's `x % d`: the remainder of a division truncated toward zero. */
  function Rem(x: real, d: real): real
    requires d > 0.0
  {
    var q := x / d;
    var t := if q >= 0.0 then q.Floor else -((-q).Floor);
    x - d * t as real
  }

  /** Two-digit seconds: `${seconds < 10 ? "0" : ""}${seconds}`. */
  function PadSeconds(s: int): string {
    (if s < 10 then "0" else "") + IntToString(s)
  }

  /** `formatTime`: `${Math.floor(t / 60)}:` followed by the padded
      `Math.floor(t % 60)`. */
  function FormatTime(t: real): string {
    var minutes := (t / 60.0).Floor;
    var seconds := Rem(t, 60.0).Floor;
    IntToString(minutes) + ":" + PadSeconds(seconds)
  }

  /** Reads `m:ss` back as a count of seconds, or none. */
  function ParseClock(s: string): Option<int> {
    var parts := Split(s, ':');
    if |parts| == 2 && |parts[0]| >= 1 && |parts[1]| == 2 && AllDigits(parts[0]) && AllDigits(parts[1])
    then Some(DigitsValue(parts[0]) * 60 + DigitsValue(parts[1]))
    else None
  }

  /** For a non-negative time the minutes are the whole minutes and the
      seconds the remaining whole seconds, below 60. */
  lemma MinutesAndSeconds(t: real)
    requires t >= 0.0
    ensures (t / 60.0).Floor == t.Floor / 60
    ensures Rem(t, 60.0).Floor == t.Floor % 60
  {
    var m := (t / 60.0).Floor;
    var f := t.Floor;
    assert 60.0 * m as real <= t < 60.0 * m as real + 60.0;
    assert 60 * m <= f < 60 * m + 60;
    assert Rem(t, 60.0) == t - 60.0 * m as real;
    assert (t - 60.0 * m as real).Floor == f - 60 * m;
  }

  /** The padded seconds of a value below 60 are exactly two digits. */
  lemma PadSecondsDigits(s: int)
    requires 0 <= s < 60
    ensures |PadSeconds(s)| == 2 && AllDigits(PadSeconds(s)) && DigitsValue(PadSeconds(s)) == s
  {
    DigitsValueNatToString(s);
    if s < 10 {
      var d := NatToString(s);
      var p := "0" + d;
      assert |d| == 1;
      assert p[..1] == "0";
      assert DigitsValue(p) == DigitsValue("0") * 10 + DigitValue(p[1]);
      assert DigitsValue(d) == DigitsValue(d[..0]) * 10 + DigitValue(d[0]);
      assert d[..0] == "";
    } else {
      assert PadSeconds(s) == NatToString(s);
      assert NatToString(s) == NatToString(s / 10) + [DigitChar(s % 10)];
    }
  }

  /** `formatTime` of a non-negative time reads back as its whole seconds:
      the display loses only the fraction. */
  lemma FormatTimeRoundTrip(t: real)
    requires t >= 0.0
    ensures ParseClock(FormatTime(t)) == Some(t.Floor)
  {
    MinutesAndSeconds(t);
    var m := t.Floor / 60;
    var s := t.Floor % 60;
    var ms := NatToString(m);
    var ss := PadSeconds(s);
    PadSecondsDigits(s);
    assert FormatTime(t) == ms + ":" + ss;
    assert ':' !in ms by { forall i | 0 <= i < |ms| ensures ms[i] != ':' { assert IsDigit(ms[i]); } }
    assert ':' !in ss by { forall i | 0 <= i < |ss| ensures ss[i] != ':' { assert IsDigit(ss[i]); } }
    assert Join([ms, ss], ':') == ms + ":" + ss by {
      assert Join([ms, ss], ':') == ms + [':'] + Join([ss], ':');
    }
    SplitJoin([ms, ss], ':');
    DigitsValueNatToString(m);
  }
}
