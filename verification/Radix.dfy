/** Numbers in base 2, 8, 10 and 16: detecting a base, parsing and printing 256-bit numbers, with
    negative numbers in two's complement. */
module Radix {
  import opened Wrappers

  const TWO_64: int := 0x1_0000_0000_0000_0000
  const TWO_255: int := 0x8000_0000_0000_0000_0000_0000_0000_0000_0000_0000_0000_0000_0000_0000_0000_0000
  const TWO_256: int := 2 * TWO_255

  type U256 = n: nat | n < TWO_256

  datatype Base = Binary | Octal | Decimal | Hexadecimal

  function RadixOf(base: Base): (r: nat)
    ensures 2 <= r <= 16
  {
    match base
    case Binary => 2
    case Octal => 8
    case Decimal => 10
    case Hexadecimal => 16
  }

  function PrefixOf(base: Base): string {
    match base
    case Binary => "0b"
    case Octal => "0o"
    case Decimal => ""
    case Hexadecimal => "0x"
  }

  // ---------------------------------------------------------------------------------------------
  // Digits
  // ---------------------------------------------------------------------------------------------

  function DigitChar(d: nat): char
    requires d < 16
  {
    if d < 10 then '0' + d as char else 'a' + (d - 10) as char
  }

  /** The value of a digit or letter in either case. */
  function CharDigit(c: char): Option<nat> {
    if '0' <= c <= '9' then Some((c - '0') as nat)
    else if 'a' <= c <= 'z' then Some((c - 'a') as nat + 10)
    else if 'A' <= c <= 'Z' then Some((c - 'A') as nat + 10)
    else None
  }

  predicate IsDigit(c: char, r: nat) {
    CharDigit(c).Some? && CharDigit(c).value < r
  }

  predicate AllDigits(s: string, r: nat) {
    forall i :: 0 <= i < |s| ==> IsDigit(s[i], r)
  }

  lemma DigitRoundTrip(d: nat, r: nat)
    requires d < r <= 16
    ensures CharDigit(DigitChar(d)) == Some(d) && IsDigit(DigitChar(d), r)
    ensures DigitChar(d) == '0' <==> d == 0
  {
  }

  /** Without leading zeros; zero is "0". */
  function Digits(n: nat, r: nat): string
    requires 2 <= r <= 16
    decreases n
  {
    if n < r then [DigitChar(n)] else Digits(n / r, r) + [DigitChar(n % r)]
  }

  /** One more digit. */
  function Horner(value: nat, r: nat, d: nat): nat {
    value * r + d
  }

  lemma HornerDivMod(n: nat, r: nat)
    requires r >= 2
    ensures Horner(n / r, r, n % r) == n
  {
  }

  lemma HornerGrows(value: nat, r: nat, d: nat)
    requires r >= 2
    ensures value <= Horner(value, r, d)
  {
    assert value <= value * r;
  }

  /** What a digit string denotes. */
  function Value(s: string, r: nat): nat
    requires AllDigits(s, r)
  {
    if s == "" then 0 else Horner(Value(s[..|s| - 1], r), r, CharDigit(s[|s| - 1]).value)
  }

  lemma DigitsStep(n: nat, r: nat)
    requires 2 <= r <= 16
    ensures n < r ==> Digits(n, r) == [DigitChar(n)]
    ensures n >= r ==> 0 < n / r < n && n % r < r && Digits(n, r) == Digits(n / r, r) + [DigitChar(n % r)]
  {
  }

  lemma ValueSnoc(s: string, c: char, r: nat)
    requires AllDigits(s, r) && IsDigit(c, r)
    ensures AllDigits(s + [c], r) && Value(s + [c], r) == Horner(Value(s, r), r, CharDigit(c).value)
  {
    assert (s + [c])[..|s|] == s;
  }

  lemma NoDigits(r: nat, d: nat)
    ensures AllDigits("", r) && Value("", r) == 0 && Horner(0, r, d) == d
  {
  }

  lemma ValueOne(c: char, r: nat)
    requires IsDigit(c, r)
    ensures AllDigits([c], r) && Value([c], r) == CharDigit(c).value
  {
    assert CharDigit(c).Some?;
    hide *;
    NoDigits(r, CharDigit(c).value);
    ValueSnoc("", c, r);
    assert "" + [c] == [c];
  }

  /** Printing gives digits, no leading zero except for zero itself, and denotes the number. */
  lemma {:induction false} DigitsMeaning(n: nat, r: nat)
    requires 2 <= r <= 16
    ensures var s := Digits(n, r);
            && s != "" && AllDigits(s, r) && Value(s, r) == n
            && (s[0] == '0' <==> n == 0) && (n == 0 ==> s == "0")
    decreases n
  {
    DigitsStep(n, r);
    if n < r {
      DigitRoundTrip(n, r);
      ValueOne(DigitChar(n), r);
    } else {
      DigitsMeaning(n / r, r);
      DigitRoundTrip(n % r, r);
      HornerDivMod(n, r);
      hide *;
      ValueSnoc(Digits(n / r, r), DigitChar(n % r), r);
    }
  }

  // ---------------------------------------------------------------------------------------------
  // The integer parsers that are called
  // ---------------------------------------------------------------------------------------------

  /** Parsing a 256-bit number: underscores are skipped, no digits at all give zero. */
  function ParseU256(s: string, r: nat): Option<U256> {
    if s == "" then Some(0)
    else
      var before, c := ParseU256(s[..|s| - 1], r), s[|s| - 1];
      if before.None? || c == '_' then before
      else if !IsDigit(c, r) || Horner(before.value, r, CharDigit(c).value) >= TWO_256 then None
      else Some(Horner(before.value, r, CharDigit(c).value))
  }

  /** Whether 64-bit parsing succeeds or stops at an overflow: digits are checked one by one, each
      before the overflow it may cause. */
  predicate ScansU64(s: string, r: nat, value: nat) {
    s == "" ||
    (IsDigit(s[0], r) &&
     var next := Horner(value, r, CharDigit(s[0]).value);
     next >= TWO_64 || ScansU64(s[1..], r, next))
  }

  predicate AcceptsU64(s: string, r: nat) {
    s != "" && (if s[0] == '+' then s != "+" && ScansU64(s[1..], r, 0) else ScansU64(s, r, 0))
  }

  /** Digit strings of 256-bit numbers parse to what they denote. */
  lemma {:induction false} ParseDigits(s: string, r: nat)
    requires AllDigits(s, r) && Value(s, r) < TWO_256 && 2 <= r
    ensures ParseU256(s, r) == Some(Value(s, r))
  {
    if s != "" {
      var init := s[..|s| - 1];
      HornerGrows(Value(init, r), r, CharDigit(s[|s| - 1]).value);
      hide Horner;
      ParseDigits(init, r);
      assert IsDigit(s[|s| - 1], r);
    }
  }

  lemma {:induction false} ScansDigits(s: string, r: nat, value: nat)
    requires AllDigits(s, r)
    ensures ScansU64(s, r, value)
  {
    hide Horner;
    if s != "" && Horner(value, r, CharDigit(s[0]).value) < TWO_64 {
      ScansDigits(s[1..], r, Horner(value, r, CharDigit(s[0]).value));
    }
  }

  // ---------------------------------------------------------------------------------------------
  // Base detection
  // ---------------------------------------------------------------------------------------------

  predicate HasPrefix(s: string, p: string) {
    |p| <= |s| && s[..|p|] == p
  }

  function Detect(s: string): Option<Base> {
    if s != "" && (s[0] == '+' || s[0] == '-') then Detect(s[1..])
    else if HasPrefix(s, "0b") then (if AcceptsU64(s[2..], 2) then Some(Binary) else None)
    else if HasPrefix(s, "0o") then (if AcceptsU64(s[2..], 8) then Some(Octal) else None)
    else if HasPrefix(s, "0x") then (if AcceptsU64(s[2..], 16) then Some(Hexadecimal) else None)
    else if ParseU256(s, 10).Some? then Some(Decimal)
    else if ParseU256(s, 16).Some? then Some(Hexadecimal)
    else None
  }

  // ---------------------------------------------------------------------------------------------
  // Numbers with a base
  // ---------------------------------------------------------------------------------------------

  datatype Number = Number(raw: U256, isNonnegative: bool, base: Base)

  /** The signed reading of a 256-bit word. */
  function Signed(raw: U256): int {
    if raw < TWO_255 then raw else raw - TWO_256
  }

  function Abs(i: int): nat {
    if i < 0 then -i else i
  }

  function TrimZeros(s: string): string {
    if s != "" && s[0] == '0' then TrimZeros(s[1..]) else s
  }

  /** The digits alone, without sign or prefix. */
  function Format(n: Number): string {
    TrimZeros(if n.base.Decimal? && !n.isNonnegative then Digits(Abs(Signed(n.raw)), 10)
              else Digits(n.raw, RadixOf(n.base)))
  }

  /** Only decimal numbers show a sign. */
  function Show(n: Number, addPrefix: bool): string {
    var prefix := if addPrefix then PrefixOf(n.base) else "";
    if n.raw == 0 then prefix + "0"
    else if n.base.Decimal? && !n.isNonnegative then "-" + prefix + Format(n)
    else prefix + Format(n)
  }

  function StripPrefix(s: string): string {
    if |s| >= 2 && s[..2] in {"0x", "0X", "0o", "0O", "0b", "0B"} then s[2..] else s
  }

  function ParseUint(s: string, base: Base): Option<U256> {
    ParseU256(StripPrefix(s), RadixOf(base))
  }

  /** Two's complement negation of a 256-bit word. */
  function Negate(n: U256): U256 {
    if n == 0 then 0 else TWO_256 - n
  }

  function UnwrapOrDetect(base: Option<Base>, s: string): Option<Base> {
    if base.Some? then base else Detect(s)
  }

  function ParseInt(s: string, base: Option<Base>): Option<Number> {
    match UnwrapOrDetect(base, s)
    case None => None
    case Some(b) =>
      var negative := s != "" && s[0] == '-';
      var unsigned := if s != "" && (s[0] == '+' || s[0] == '-') then s[1..] else s;
      match ParseUint(unsigned, b)
      case None => None
      case Some(n) => Some(Number(if negative then Negate(n) else n, !negative, b))
  }

  function FromSigned(i: int): Number
    requires -TWO_255 <= i < TWO_255
  {
    Number(if i < 0 then i + TWO_256 else i, i >= 0, Decimal)
  }

  // ---------------------------------------------------------------------------------------------
  // Printing and parsing are inverse
  // ---------------------------------------------------------------------------------------------

  lemma ShowDigits(n: Number)
    requires n.base.Decimal? ==> n.isNonnegative
    ensures Show(n, true) == PrefixOf(n.base) + Digits(n.raw, RadixOf(n.base))
  {
    DigitsMeaning(n.raw, RadixOf(n.base));
  }

  /** The digits of a number do not look like a sign or a base prefix. */
  lemma DigitsArePlain(n: nat, r: nat)
    requires 2 <= r <= 10
    ensures var s := Digits(n, r);
            && s != "" && s[0] != '+' && s[0] != '-'
            && StripPrefix(s) == s && !HasPrefix(s, "0b") && !HasPrefix(s, "0o") && !HasPrefix(s, "0x")
  {
    DigitsMeaning(n, r);
    var s := Digits(n, r);
    if |s| >= 2 {
      assert IsDigit(s[0], r) && IsDigit(s[1], r);
      assert s[..2][1] == s[1];
    }
  }

  lemma PlusIsNoDigit(c: char, r: nat)
    requires IsDigit(c, r)
    ensures c != '+' && c != '-' && c != '_'
  {
  }

  lemma DetectPrefixed(n: U256, base: Base)
    requires !base.Decimal?
    ensures var s := PrefixOf(base) + Digits(n, RadixOf(base));
            && Detect(s) == Some(base)
            && s[0] == '0' && s[2..] == Digits(n, RadixOf(base)) && StripPrefix(s) == s[2..]
  {
    hide Digits, Value, ScansU64, ParseU256, CharDigit;
    var r := RadixOf(base);
    var d := Digits(n, r);
    var s := PrefixOf(base) + d;
    DigitsMeaning(n, r);
    assert s[..2] == PrefixOf(base) && s[2..] == d;
    PlusIsNoDigit(d[0], r);
    ScansDigits(d, r, 0);
  }

  /** For every 256-bit number and every base: printing with the prefix and parsing with the base
      detected from the text gives the number back. */
  lemma PrintParseUnsigned(n: U256, base: Base)
    ensures ParseInt(Show(Number(n, true, base), true), None) == Some(Number(n, true, base))
  {
    hide Digits, Value, ParseU256, Detect, StripPrefix, Show;
    var r := RadixOf(base);
    ShowDigits(Number(n, true, base));
    DigitsMeaning(n, r);
    ParseDigits(Digits(n, r), r);
    if base.Decimal? {
      DetectDecimal(n);
      assert "" + Digits(n, 10) == Digits(n, 10);
    } else {
      DetectPrefixed(n, base);
    }
  }

  lemma DetectDecimal(n: U256)
    ensures var s := Digits(n, 10);
            Detect(s) == Some(Decimal) && s != "" && s[0] != '+' && s[0] != '-' && StripPrefix(s) == s
  {
    hide Digits, Value, ParseU256;
    DigitsMeaning(n, 10);
    DigitsArePlain(n, 10);
    ParseDigits(Digits(n, 10), 10);
  }

  lemma ShowNegative(m: nat)
    requires 0 < m <= TWO_255
    ensures Show(Number(TWO_256 - m, false, Decimal), true) == "-" + Digits(m, 10)
  {
    hide Digits, Value;
    DigitsMeaning(m, 10);
    assert Abs(Signed(TWO_256 - m)) == m;
    assert "-" + "" + Digits(m, 10) == "-" + Digits(m, 10);
  }

  lemma ParseNegative(m: U256)
    ensures ParseInt("-" + Digits(m, 10), None) == Some(Number(Negate(m), false, Decimal))
  {
    hide Digits, Value, ParseU256, StripPrefix;
    var s := "-" + Digits(m, 10);
    DigitsMeaning(m, 10);
    DetectDecimal(m);
    ParseDigits(Digits(m, 10), 10);
    assert s[1..] == Digits(m, 10);
    assert Detect(s) == Detect(s[1..]);
  }

  /** For every signed 256-bit number, the least one and zero included: decimal printing and signed
      parsing are inverse through two's complement. */
  lemma PrintParseSigned(i: int)
    requires -TWO_255 <= i < TWO_255
    ensures ParseInt(Show(FromSigned(i), true), None) == Some(FromSigned(i))
    ensures Signed(FromSigned(i).raw) == i
  {
    if i >= 0 {
      PrintParseUnsigned(i, Decimal);
    } else {
      ShowNegative(-i);
      ParseNegative(-i);
    }
  }

  /** A negative decimal text is printed back unchanged if and only if its magnitude is between one and
      2^255; beyond that two's complement wraps around. */
  lemma NegativeTextPreservedIff(m: U256)
    ensures ParseInt("-" + Digits(m, 10), None).Some?
    ensures Show(ParseInt("-" + Digits(m, 10), None).value, true) == "-" + Digits(m, 10) <==> 1 <= m <= TWO_255
  {
    ParseNegative(m);
    if 1 <= m <= TWO_255 {
      ShowNegative(m);
    } else if m == 0 {
      assert Show(Number(0, false, Decimal), true) == "0";
      assert ("-" + Digits(0, 10))[0] == '-';
    } else {
      var k := TWO_256 - m;
      DigitsMeaning(k, 10);
      DigitsMeaning(m, 10);
      assert Show(Number(k, false, Decimal), true) == "-" + "" + Digits(k, 10);
      assert ("-" + "" + Digits(k, 10))[1..] == Digits(k, 10);
      assert ("-" + Digits(m, 10))[1..] == Digits(m, 10);
    }
  }
}
