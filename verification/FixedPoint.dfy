/** Printing an integer as a fixed-point number with a given count of decimals. */
module FixedPoint {
  import opened Radix
  import opened Wrappers

  function Zeros(n: nat): string {
    seq(n, _ => '0')
  }

  /** The decimal display without its sign. */
  function Unsigned(n: Number): string {
    var value := Show(n.(base := Decimal), true);
    if value != "" && value[0] == '-' then value[1..] else value
  }

  function SignOf(n: Number): string {
    if n.isNonnegative then "" else "-"
  }

  /** Shorter numbers are padded after "0."; otherwise the dot is inserted from the right. */
  function ToFixedPoint(n: Number, decimals: nat): string {
    var value := Unsigned(n);
    SignOf(n) +
    (if decimals >= |value| then "0." + Zeros(decimals - |value|) + value
     else value[..|value| - decimals] + "." + value[|value| - decimals..])
  }

  /** Both arguments are parsed from text, the second as an unsigned number. */
  function ToFixedPointText(value: string, decimals: string): Option<string> {
    var n, base := ParseInt(value, None), Detect(decimals);
    if n.None? || base.None? then None
    else
      match ParseUint(decimals, base.value)
      case None => None
      case Some(d) => Some(ToFixedPoint(n.value, d))
  }

  /** The magnitude that a number displays. */
  function Magnitude(n: Number): nat {
    if n.isNonnegative then n.raw else Abs(Signed(n.raw))
  }

  function Pow10(d: nat): nat {
    if d == 0 then 1 else 10 * Pow10(d - 1)
  }

  /** The integer that a whole part and `d` fractional digits denote when the dot is left out. */
  function WithoutDot(whole: nat, d: nat, fraction: nat): nat {
    whole * Pow10(d) + fraction
  }

  // ---------------------------------------------------------------------------------------------
  // Values of concatenated digit strings
  // ---------------------------------------------------------------------------------------------

  lemma {:induction false} ValueConcat(x: string, y: string)
    requires AllDigits(x, 10) && AllDigits(y, 10)
    ensures AllDigits(x + y, 10)
    ensures Value(x + y, 10) == WithoutDot(Value(x, 10), |y|, Value(y, 10))
    ensures Value(y, 10) < Pow10(|y|)
  {
    hide *;
    if y == "" {
      ConcatNothing(x);
    } else {
      var n := |y| - 1;
      DigitsInit(y);
      ValueConcat(x, y[..n]);
      assert x + y == (x + y[..n]) + [y[n]];
      assert y == y[..n] + [y[n]];
      ValueSnoc(x + y[..n], y[n], 10);
      ValueSnoc(y[..n], y[n], 10);
      ShiftDigit(Value(x, 10), n, Value(y[..n], 10), CharDigit(y[n]).value);
    }
  }

  lemma ConcatNothing(x: string)
    requires AllDigits(x, 10)
    ensures x + "" == x && AllDigits("", 10) && Value("", 10) == 0 && Pow10(0) == 1
    ensures WithoutDot(Value(x, 10), 0, 0) == Value(x, 10)
  {
  }

  lemma NoWhole(d: nat, fraction: nat)
    ensures WithoutDot(0, d, fraction) == fraction
  {
  }

  lemma DigitsInit(y: string)
    requires y != "" && AllDigits(y, 10)
    ensures AllDigits(y[..|y| - 1], 10) && IsDigit(y[|y| - 1], 10)
    ensures CharDigit(y[|y| - 1]).Some? && CharDigit(y[|y| - 1]).value < 10
  {
  }

  lemma ShiftDigit(whole: nat, n: nat, fraction: nat, d: nat)
    requires fraction < Pow10(n) && d < 10
    ensures Horner(WithoutDot(whole, n, fraction), 10, d) == WithoutDot(whole, n + 1, Horner(fraction, 10, d))
    ensures Horner(fraction, 10, d) < Pow10(n + 1)
  {
    assert whole * (10 * Pow10(n)) == 10 * (whole * Pow10(n));
  }

  lemma ZerosStep(n: nat)
    ensures Zeros(0) == "" && Zeros(n + 1) == Zeros(n) + ['0']
  {
  }

  lemma ZeroDigit()
    ensures IsDigit('0', 10) && CharDigit('0') == Some(0) && Horner(0, 10, 0) == 0
  {
  }

  lemma {:induction false} ZerosValue(n: nat)
    ensures AllDigits(Zeros(n), 10) && Value(Zeros(n), 10) == 0
  {
    hide *;
    if n == 0 {
      ZerosStep(0);
      NoDigits(10, 0);
    } else {
      ZerosValue(n - 1);
      ZerosStep(n - 1);
      ZeroDigit();
      ValueSnoc(Zeros(n - 1), '0', 10);
    }
  }

  // ---------------------------------------------------------------------------------------------
  // What the printed number denotes
  // ---------------------------------------------------------------------------------------------

  lemma UnsignedIsMagnitude(n: Number)
    ensures Unsigned(n) == Digits(Magnitude(n), 10)
  {
    hide Digits, Value, StripPrefix, HasPrefix;
    var m := Magnitude(n);
    DigitsMeaning(m, 10);
    DigitsArePlain(m, 10);
    assert "" + Digits(m, 10) == Digits(m, 10);
    assert ("-" + "" + Digits(m, 10))[1..] == Digits(m, 10);
    assert "" + "0" == "0";
  }

  /** For every number and every count of decimals: the text is the sign, at least one whole digit, a
      dot and exactly that many fractional digits; the whole part times that power of ten plus the
      fraction, which is below it, is the magnitude. */
  lemma FixedPointIsExact(n: Number, d: nat) returns (whole: string, fraction: string)
    ensures ToFixedPoint(n, d) == SignOf(n) + (whole + "." + fraction)
    ensures whole != "" && |fraction| == d && AllDigits(whole, 10) && AllDigits(fraction, 10)
    ensures whole[0] == '0' ==> whole == "0"
    ensures WithoutDot(Value(whole, 10), d, Value(fraction, 10)) == Magnitude(n) && Value(fraction, 10) < Pow10(d)
  {
    hide Digits, Value, Unsigned, Pow10, WithoutDot;
    var value := Unsigned(n);
    UnsignedIsMagnitude(n);
    DigitsMeaning(Magnitude(n), 10);
    if d >= |value| {
      var pad := Zeros(d - |value|);
      whole, fraction := "0", pad + value;
      ZerosValue(d - |value|);
      ValueConcat(pad, value);
      NoWhole(|value|, Value(value, 10));
      NoWhole(d, Value(fraction, 10));
      ValueOne('0', 10);
      ValueConcat(whole, fraction);
      assert "0." + pad + value == whole + "." + fraction;
    } else {
      var k := |value| - d;
      whole, fraction := value[..k], value[k..];
      assert value == whole + fraction;
      OnlyZeroStartsWithZero(Magnitude(n), whole, fraction);
      SplitDigits(whole, fraction);
      ValueConcat(whole, fraction);
    }
  }

  lemma SplitDigits(x: string, y: string)
    requires AllDigits(x + y, 10)
    ensures AllDigits(x, 10) && AllDigits(y, 10)
  {
    forall i | 0 <= i < |x| ensures IsDigit(x[i], 10) { assert (x + y)[i] == x[i]; }
    forall i | 0 <= i < |y| ensures IsDigit(y[i], 10) { assert (x + y)[|x| + i] == y[i]; }
  }

  lemma OnlyZeroStartsWithZero(m: nat, whole: string, fraction: string)
    requires Digits(m, 10) == whole + fraction && whole != ""
    ensures whole[0] == '0' ==> whole == "0"
  {
    DigitsMeaning(m, 10);
    assert (whole + fraction)[0] == whole[0];
    hide Digits;
    if m == 0 {
      assert |whole + fraction| == 1;
    }
  }

  // ---------------------------------------------------------------------------------------------
  // From text to text
  // ---------------------------------------------------------------------------------------------

  function TextOf(i: int): string {
    if i < 0 then "-" + Digits(-i, 10) else Digits(i, 10)
  }

  lemma TextParses(i: int)
    requires -TWO_255 <= i < TWO_256
    ensures var n := ParseInt(TextOf(i), None);
            n.Some? && n.value.isNonnegative == (i >= 0) && Magnitude(n.value) == Abs(i)
  {
    if i < 0 {
      ParseNegative(-i);
    } else {
      var n := Number(i, true, Decimal);
      PrintParseUnsigned(i, Decimal);
      ShowDigits(n);
      assert "" + Digits(i, 10) == Digits(i, 10);
    }
  }

  lemma DecimalsParse(d: U256)
    ensures Detect(Digits(d, 10)) == Some(Decimal) && ParseUint(Digits(d, 10), Decimal) == Some(d)
  {
    DetectDecimal(d);
    DigitsMeaning(d, 10);
    ParseDigits(Digits(d, 10), 10);
  }

  /** For every integer from -2^255 up to 2^256 and every count of decimals, given as decimal text: the
      printed text denotes exactly the integer divided by that power of ten. */
  lemma FixedPointText(i: int, d: U256) returns (whole: string, fraction: string)
    requires -TWO_255 <= i < TWO_256
    ensures ToFixedPointText(TextOf(i), Digits(d, 10)) ==
              Some((if i < 0 then "-" else "") + (whole + "." + fraction))
    ensures whole != "" && |fraction| == d && AllDigits(whole, 10) && AllDigits(fraction, 10)
    ensures WithoutDot(Value(whole, 10), d, Value(fraction, 10)) == Abs(i) && Value(fraction, 10) < Pow10(d)
  {
    hide Digits, Value, ParseInt, Detect, ParseUint, ToFixedPoint, TextOf;
    TextParses(i);
    DecimalsParse(d);
    var n := ParseInt(TextOf(i), None).value;
    whole, fraction := FixedPointIsExact(n, d);
  }
}
