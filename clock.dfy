/** Integer arithmetic the core writes with JavaScript numbers: the `MM:SS`
    clock text of `formatTime` (identical in flashcards.js and quiz.js), the
    reading of that text back into seconds, and `Math.round` of a ratio. */
module Clock {
  import opened Base
  import opened Text

  // ---------------------------------------------------------------- JS operators

  /** JavaScript's `a % b` for a positive `b`: the remainder takes the sign of `a`. */
  function JsRem(a: int, b: int): (r: int)
    requires b > 0
    ensures -b < r < b
    ensures a >= 0 ==> 0 <= r == a % b
    ensures a < 0 ==> r <= 0
  {
    if a >= 0 then a % b else -((-a) % b)
  }

  /** `Math.round(a / b)` for a positive `b`: the nearest integer, halves rounded up. */
  function RoundRatio(a: int, b: int): (r: int)
    requires b > 0
    ensures b * (2 * r - 1) <= 2 * a < b * (2 * r + 1)
  {
    (2 * a + b) / (2 * b)
  }

  /** `Math.round(a / b * 100)`: a percentage rounded to a whole number. */
  function Percent(a: int, b: int): (r: int)
    requires b > 0
    ensures b * (2 * r - 1) <= 200 * a < b * (2 * r + 1)
  {
    RoundRatio(100 * a, b)
  }

  /** A part of a whole is a percentage between 0 and 100. */
  lemma PercentBounds(a: int, b: int)
    requires 0 <= a <= b && b > 0
    ensures 0 <= Percent(a, b) <= 100
  {
    var r := Percent(a, b);
    LessByFactor(b, 0, 2 * r + 1);
    LessByFactor(b, 2 * r - 1, 201);
  }

  /** The nearest percentage does not decrease as the part grows. */
  lemma {:induction false} PercentMonotone(a: int, a': int, b: int)
    requires b > 0 && a <= a'
    ensures Percent(a, b) <= Percent(a', b)
  {
    var r, r' := Percent(a, b), Percent(a', b);
    LessByFactor(b, 2 * r - 1, 2 * r' + 1);
  }

  lemma LessByFactor(b: int, x: int, y: int)
    requires b > 0 && b * x < b * y
    ensures x < y
  {
    if x >= y {
      MulMonotone(b, y, x);
    }
  }

  lemma MulMonotone(b: int, x: int, y: int)
    requires b > 0 && x <= y
    ensures b * x <= b * y
  {
    assert b * y == b * x + b * (y - x);
  }

  // ---------------------------------------------------------------- formatTime

  /** `formatTime(seconds)`: floor-divided minutes, a colon, and the truncated
      remainder, with a `0` in front of it when it is below 10. */
  function FormatTime(seconds: int): (r: string)
    ensures ':' in r
  {
    var minutes := seconds / 60;
    var secs := JsRem(seconds, 60);
    IntToString(minutes) + ":" + (if secs < 10 then "0" else "") + IntToString(secs)
  }

  /** For a non-negative count the text is `m:ss` with exactly two second digits. */
  lemma FormatTimeShape(seconds: int)
    requires seconds >= 0
    ensures FormatTime(seconds)
         == NatToString(seconds / 60) + ":" + SecondsText(seconds % 60)
    ensures |SecondsText(seconds % 60)| == 2
  {
    var s := seconds % 60;
    assert JsRem(seconds, 60) == s;
    assert IntToString(seconds / 60) == NatToString(seconds / 60);
    assert IntToString(s) == NatToString(s);
    assert |SecondsText(s)| == 2 by {
      if s >= 10 {
        assert NatToString(s) == NatToString(s / 10) + [DigitChar(s % 10)];
      }
    }
  }

  /** The two-digit seconds field. */
  function SecondsText(s: nat): string
  {
    (if s < 10 then "0" else "") + NatToString(s)
  }

  // ---------------------------------------------------------------- reading the clock back

  /** `s` without its leading white space (a digit is never white space). */
  function SkipSpace(s: string): string
  {
    if s != [] && !IsDigit(s[0]) && IsJsSpace(s[0]) then SkipSpace(s[1..]) else s
  }

  /** What `parseInt(s)` reads after the leading white space: an optional
      sign, then the digits. */
  function Unsigned(s: string): string
  {
    var t := SkipSpace(s);
    if t != [] && (t[0] == '+' || t[0] == '-') then t[1..] else t
  }

  /** The run of decimal digits `u` starts with. */
  function LeadingDigits(u: string): string
  {
    if u != [] && IsDigit(u[0]) then [u[0]] + LeadingDigits(u[1..]) else []
  }

  lemma {:induction false} LeadingDigitsSpec(u: string)
    ensures AllDigits(LeadingDigits(u)) && LeadingDigits(u) <= u
    ensures LeadingDigits(u) == [] <==> u == [] || !IsDigit(u[0])
  {
    if u != [] && IsDigit(u[0]) {
      LeadingDigitsSpec(u[1..]);
    }
  }

  /** `parseInt(s)` in base 10: white space is skipped, a sign is read, and the
      longest run of digits after it gives the value; `None` stands for `NaN`,
      which is what text without such digits gives. */
  function ParseInt(s: string): (r: Option<int>)
    ensures r.Some? <==> Unsigned(s) != [] && IsDigit(Unsigned(s)[0])
  {
    var digits := LeadingDigits(Unsigned(s));
    LeadingDigitsSpec(Unsigned(s));
    if digits == [] then None
    else if SkipSpace(s)[0] == '-' then Some(0 - DigitsValue(digits))
    else Some(DigitsValue(digits))
  }

  /** One step of `reduce((m, s) => m * 60 + parseInt(s), 0)`; `NaN` stays `NaN`. */
  function Step(acc: Option<int>, part: string): Option<int>
  {
    match (acc, ParseInt(part))
    case (Some(m), Some(v)) => Some(m * 60 + v)
    case _ => None
  }

  /** The whole `reduce` over the parts of the clock text. */
  function Accumulate(acc: Option<int>, parts: seq<string>): Option<int>
    decreases |parts|
  {
    if parts == [] then acc else Accumulate(Step(acc, parts[0]), parts[1..])
  }

  /** The number of seconds a clock text stands for, as quiz.js reads its timer. */
  function ClockValue(text: string): Option<int>
  {
    Accumulate(Some(0), SplitBy(text, c => c == ':'))
  }

  lemma {:induction false} DigitsValueLeadingZero(d: string)
    requires forall i :: 0 <= i < |d| ==> IsDigit(d[i])
    ensures DigitsValue("0" + d) == DigitsValue(d)
  {
    if d != [] {
      var z := "0" + d;
      assert z[..|z| - 1] == "0" + d[..|d| - 1];
      DigitsValueLeadingZero(d[..|d| - 1]);
    }
  }

  lemma {:induction false} LeadingDigitsAll(u: string)
    requires AllDigits(u)
    ensures LeadingDigits(u) == u
  {
    if u != [] {
      LeadingDigitsAll(u[1..]);
    }
  }

  /** The run of digits ends at the first character that is not one. */
  lemma {:induction false} LeadingDigitsStop(d: string, rest: string)
    requires AllDigits(d) && (rest == [] || !IsDigit(rest[0]))
    ensures LeadingDigits(d + rest) == d
  {
    if d == [] {
      assert d + rest == rest;
    } else {
      assert (d + rest)[1..] == d[1..] + rest;
      LeadingDigitsStop(d[1..], rest);
    }
  }

  /** `parseInt` reads a natural number back from its decimal text followed
      by anything that does not start with a digit. */
  lemma ParseNatPrefix(n: nat, rest: string)
    requires rest == [] || !IsDigit(rest[0])
    ensures ParseInt(NatToString(n) + rest) == Some(n)
  {
    var d := NatToString(n);
    var t := d + rest;
    assert t[0] == d[0];
    assert SkipSpace(t) == t by {
      assert IsDigit(t[0]);
    }
    assert Unsigned(t) == t;
    LeadingDigitsStop(d, rest);
    NatToStringRoundTrip(n);
  }

  lemma ParseAllDigits(s: string)
    requires s != [] && AllDigits(s)
    ensures ParseInt(s) == Some(DigitsValue(s))
  {
    assert SkipSpace(s) == s by {
      assert !IsJsSpace(s[0]);
    }
    assert Unsigned(s) == s;
    LeadingDigitsAll(s);
  }

  /** `parseInt` reads back the decimal text of any whole number. */
  lemma ParseIntRoundTrip(n: int)
    ensures ParseInt(IntToString(n)) == Some(n)
  {
    if n >= 0 {
      NatToStringRoundTrip(n);
      ParseAllDigits(NatToString(n));
    } else {
      NatToStringRoundTrip(-n);
      ParseNegative(NatToString(-n));
    }
  }

  lemma ParseNegative(d: string)
    requires d != [] && AllDigits(d)
    ensures ParseInt("-" + d) == Some(0 - DigitsValue(d))
  {
    var t := "-" + d;
    assert SkipSpace(t) == t by {
      assert !IsJsSpace(t[0]);
    }
    assert Unsigned(t) == d by {
      assert t[1..] == d;
    }
    LeadingDigitsAll(d);
  }

  predicate AllDigits(s: string)
  {
    forall i :: 0 <= i < |s| ==> IsDigit(s[i])
  }

  /** Two digit runs joined by a colon read as minutes and seconds. */
  lemma ClockValueOfFields(mt: string, st: string)
    requires mt != [] && st != [] && AllDigits(mt) && AllDigits(st)
    ensures ClockValue(mt + [':'] + st) == Some(DigitsValue(mt) * 60 + DigitsValue(st))
  {
    ClockFields(mt, st);
    TwoFields(mt, st);
  }

  /** The `reduce` over two fields of digits. */
  lemma TwoFields(mt: string, st: string)
    requires mt != [] && st != [] && AllDigits(mt) && AllDigits(st)
    ensures Accumulate(Some(0), [mt, st]) == Some(DigitsValue(mt) * 60 + DigitsValue(st))
  {
    AccumulateTwo(Some(0), mt, st);
    FieldStep(0, mt);
    FieldStep(DigitsValue(mt), st);
  }

  lemma AccumulateTwo(acc: Option<int>, a: string, b: string)
    ensures Accumulate(acc, [a, b]) == Step(Step(acc, a), b)
  {
    var x := Step(acc, a);
    assert [a, b][1..] == [b];
    assert Accumulate(acc, [a, b]) == Accumulate(x, [b]);
    assert [b][1..] == [];
    assert Accumulate(x, [b]) == Accumulate(Step(x, b), []);
  }

  /** A field of digits adds its value to the minutes so far. */
  lemma FieldStep(acc: int, part: string)
    requires part != [] && AllDigits(part)
    ensures Step(Some(acc), part) == Some(acc * 60 + DigitsValue(part))
  {
    ParseAllDigits(part);
  }

  /** Clock text with one colon splits into its two fields. */
  lemma ClockFields(mt: string, st: string)
    requires AllDigits(mt) && AllDigits(st)
    ensures ClockValue(mt + [':'] + st) == Accumulate(Some(0), [mt, st])
  {
    var isColon := (c: char) => c == ':';
    SplitByFirst(mt, ':', st, isColon);
    assert FindIndex(st, isColon) == -1;
  }

  /** Reading back the text `formatTime` writes gives the seconds it was given. */
  lemma FormatTimeRoundTrip(seconds: int)
    requires seconds >= 0
    ensures ClockValue(FormatTime(seconds)) == Some(seconds)
  {
    FormatTimeFields(seconds);
    ReadBack(FormatTime(seconds), NatToString(seconds / 60), SecondsText(seconds % 60), seconds);
  }

  lemma ReadBack(text: string, mt: string, st: string, v: int)
    requires text == mt + [':'] + st
    requires mt != [] && st != [] && AllDigits(mt) && AllDigits(st)
    requires DigitsValue(mt) * 60 + DigitsValue(st) == v
    ensures ClockValue(text) == Some(v)
  {
    ClockValueOfFields(mt, st);
  }

  /** The two fields of the clock text and the values they read as. */
  lemma FormatTimeFields(seconds: int)
    requires seconds >= 0
    ensures var mt, st := NatToString(seconds / 60), SecondsText(seconds % 60);
      && FormatTime(seconds) == mt + [':'] + st
      && mt != [] && st != [] && AllDigits(mt) && AllDigits(st)
      && DigitsValue(mt) * 60 + DigitsValue(st) == seconds
  {
    var m, s := seconds / 60, seconds % 60;
    var mt, st := NatToString(m), SecondsText(s);
    assert DigitsValue(st) == s by {
      NatToStringRoundTrip(s);
      if s < 10 {
        DigitsValueLeadingZero(NatToString(s));
      }
    }
    assert DigitsValue(mt) == m by {
      NatToStringRoundTrip(m);
    }
    assert FormatTime(seconds) == mt + [':'] + st by {
      FormatTimeShape(seconds);
    }
  }
}
