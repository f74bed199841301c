/** Times are kept as whole milliseconds. The pipeline prints its float
    seconds in two ways and reads them back with `float()`:
    - `f"{x:.3f}"` (time_info.txt), modelled by `Fixed3`;
    - `str(x)` / f-string `{x}` of a value rounded to three decimals
      (visual timestamps in prompts, times in serialized scenes), modelled
      by `Repr`, the shortest text that denotes the float;
    - `float(s)`, modelled by `ParseSeconds` on the forms these printers
      produce (optional sign, digits, optional point, at most three
      fraction digits). */
module Numerals {
  import opened Base
  import opened Text

  function Abs(x: int): nat
  {
    if x < 0 then -x else x
  }

  function Sign(ms: int): string
  {
    if ms < 0 then "-" else ""
  }

  /** `f"{ms / 1000:.3f}"`. */
  function Fixed3(ms: int): string
  {
    Sign(ms) + Fixed3Unsigned(Abs(ms))
  }

  function Fixed3Unsigned(n: nat): string
  {
    Decimal(n / 1000) + "." + ZeroPad(n % 1000, 3)
  }

  /** The fraction digits Python's repr prints for `f` thousandths: trailing
      zeros dropped, but at least one digit. */
  function FractionRepr(f: nat): string
    requires f < 1000
  {
    if f == 0 then "0"
    else if f % 100 == 0 then [DigitChar(f / 100)]
    else if f % 10 == 0 then ZeroPad(f / 10, 2)
    else ZeroPad(f, 3)
  }

  /** `str(ms / 1000)` for a float that has at most three decimals
      (`2.0`, `16.5`, `1.234`). */
  function Repr(ms: int): string
  {
    Sign(ms) + ReprUnsigned(Abs(ms))
  }

  function ReprUnsigned(n: nat): string
  {
    Decimal(n / 1000) + "." + FractionRepr(n % 1000)
  }

  /** `float(t)` for unsigned text: digits, an optional point, at most three
      fraction digits, at least one digit in all; `None` for any form outside
      these. */
  function ParseUnsigned(t: string): Option<int>
  {
    var k := IndexOf(t, '.');
    var whole := t[..k];
    var frac := if k < |t| then t[k + 1..] else "";
    if AllDigits(whole) && AllDigits(frac) && |whole| + |frac| > 0 && |frac| <= 3
    then Some(Millis(whole, frac))
    else None
  }

  /** The milliseconds `whole.frac` seconds denote. */
  function Millis(whole: string, frac: string): nat
    requires AllDigits(whole) && AllDigits(frac) && |frac| <= 3
  {
    ValueOf(whole) * 1000 + ValueOf(frac) * Pow10(3 - |frac|)
  }

  /** `float(s)` in milliseconds, `None` where the model reads no number. */
  function ParseSeconds(s: string): Option<int>
  {
    if |s| > 0 && (s[0] == '-' || s[0] == '+') then
      match ParseUnsigned(s[1..])
      case Some(v) => Some(if s[0] == '-' then -v else v)
      case None => None
    else ParseUnsigned(s)
  }

  /** Text that starts with a digit carries no sign. */
  lemma ParseSecondsUnsigned(t: string)
    requires t != [] && IsDigit(t[0])
    ensures ParseSeconds(t) == ParseUnsigned(t)
  {
  }

  lemma DigitsHaveNoPoint(s: string)
    requires AllDigits(s)
    ensures '.' !in s && ':' !in s && '\n' !in s
  {
  }

  /** Reading `whole.frac` back, for digit strings with at most three fraction digits. */
  lemma ParseUnsignedParts(whole: string, frac: string)
    requires AllDigits(whole) && AllDigits(frac) && |whole| >= 1 && |frac| <= 3
    ensures ParseUnsigned(whole + "." + frac) == Some(Millis(whole, frac))
  {
    var t := whole + "." + frac;
    DigitsHaveNoPoint(whole);
    assert t == whole + ("." + frac);
    IndexOfAppend(whole, "." + frac, '.');
    assert IndexOf(t, '.') == |whole|;
    assert t[..|whole|] == whole;
    assert t[|whole| + 1..] == frac;
  }

  lemma ParseSignedParts(ms: int, body: string)
    requires body != [] && IsDigit(body[0])
    requires ParseUnsigned(body) == Some(Abs(ms))
    ensures ParseSeconds(Sign(ms) + body) == Some(ms)
  {
    if ms < 0 {
      assert (Sign(ms) + body)[1..] == body;
    } else {
      assert Sign(ms) + body == body;
    }
  }

  /** `float(f"{x:.3f}")` gives `x` back. */
  lemma ParseFixed3(ms: int)
    ensures ParseSeconds(Fixed3(ms)) == Some(ms)
  {
    Fixed3UnsignedRoundTrip(Abs(ms));
    ParseSignedParts(ms, Fixed3Unsigned(Abs(ms)));
  }

  lemma Fixed3UnsignedRoundTrip(n: nat)
    ensures Fixed3Unsigned(n) != [] && IsDigit(Fixed3Unsigned(n)[0])
    ensures ParseUnsigned(Fixed3Unsigned(n)) == Some(n)
  {
    var q, r := n / 1000, n % 1000;
    ValueOfDecimal(q);
    assert Pow10(3) == 1000;
    ValueOfZeroPad(r, 3);
    var d, f := Decimal(q), ZeroPad(r, 3);
    assert Millis(d, f) == q * 1000 + r;
    PointRoundTrip(d, f, n);
  }

  lemma ValueOfFractionRepr(f: nat)
    requires f < 1000
    ensures AllDigits(FractionRepr(f)) && 1 <= |FractionRepr(f)| <= 3
    ensures ValueOf(FractionRepr(f)) * Pow10(3 - |FractionRepr(f)|) == f
  {
    assert Pow10(1) == 10 && Pow10(2) == 100 && Pow10(3) == 1000;
    if f == 0 {
      assert FractionRepr(f) == [DigitChar(0)];
    } else if f % 100 == 0 {
      assert ValueOf([DigitChar(f / 100)]) == f / 100 by {
        assert [DigitChar(f / 100)][..0] == [];
      }
    } else if f % 10 == 0 {
      ValueOfZeroPad(f / 10, 2);
    } else {
      ValueOfZeroPad(f, 3);
    }
  }

  /** `float(str(x))` gives `x` back. */
  lemma ParseRepr(ms: int)
    ensures ParseSeconds(Repr(ms)) == Some(ms)
  {
    ReprUnsignedRoundTrip(Abs(ms));
    ParseSignedParts(ms, ReprUnsigned(Abs(ms)));
  }

  lemma ReprUnsignedRoundTrip(n: nat)
    ensures ReprUnsigned(n) != [] && IsDigit(ReprUnsigned(n)[0])
    ensures ParseUnsigned(ReprUnsigned(n)) == Some(n)
  {
    var q, r := n / 1000, n % 1000;
    ValueOfDecimal(q);
    ValueOfFractionRepr(r);
    var d, f := Decimal(q), FractionRepr(r);
    assert Millis(d, f) == q * 1000 + r;
    PointRoundTrip(d, f, n);
  }

  /** `whole.frac` starts with the first digit of `whole` and reads back as
      the milliseconds it denotes. */
  lemma PointRoundTrip(whole: string, frac: string, v: nat)
    requires AllDigits(whole) && AllDigits(frac) && |whole| >= 1 && |frac| <= 3
    requires Millis(whole, frac) == v
    ensures whole + "." + frac != [] && IsDigit((whole + "." + frac)[0])
    ensures ParseUnsigned(whole + "." + frac) == Some(v)
  {
    ParseUnsignedParts(whole, frac);
    assert (whole + "." + frac)[0] == whole[0];
  }

  /** The shape both printers share: no whitespace at either end, no newline
      and no colon anywhere. */
  lemma ReprShape(ms: int)
    ensures Repr(ms) != [] && !IsSpace(Repr(ms)[0]) && !IsSpace(Repr(ms)[|Repr(ms)| - 1])
    ensures '\n' !in Repr(ms) && ':' !in Repr(ms)
  {
    var r := Abs(ms) % 1000;
    ValueOfFractionRepr(r);
    var d, f := Decimal(Abs(ms) / 1000), FractionRepr(r);
    DigitsHaveNoPoint(d);
    DigitsHaveNoPoint(f);
    assert Repr(ms) == Sign(ms) + (d + "." + f);
    assert Repr(ms)[|Repr(ms)| - 1] == f[|f| - 1];
    assert IsDigit(d[0]);
  }

  lemma Fixed3Shape(ms: int)
    ensures Fixed3(ms) != [] && !IsSpace(Fixed3(ms)[0]) && !IsSpace(Fixed3(ms)[|Fixed3(ms)| - 1])
    ensures '\n' !in Fixed3(ms) && ':' !in Fixed3(ms)
  {
    var r := Abs(ms) % 1000;
    ValueOfZeroPad(r, 3);
    assert Pow10(3) == 1000;
    var d, f := Decimal(Abs(ms) / 1000), ZeroPad(r, 3);
    DigitsHaveNoPoint(d);
    DigitsHaveNoPoint(f);
    assert Fixed3(ms) == Sign(ms) + (d + "." + f);
    assert Fixed3(ms)[|Fixed3(ms)| - 1] == f[|f| - 1];
    assert IsDigit(d[0]);
  }

  /** `str(x)` uses only a sign, digits and the point. */
  lemma ReprChars(ms: int)
    ensures forall i :: 0 <= i < |Repr(ms)| ==> Repr(ms)[i] == '-' || Repr(ms)[i] == '.' || IsDigit(Repr(ms)[i])
  {
    var r := Abs(ms) % 1000;
    ValueOfFractionRepr(r);
    var d, f := Decimal(Abs(ms) / 1000), FractionRepr(r);
    assert Repr(ms) == Sign(ms) + d + "." + f;
  }
}
