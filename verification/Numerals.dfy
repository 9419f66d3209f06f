/**
  JSON numbers (section 6 of RFC 8259), what PostgreSQL's `numeric` prints for them, and the
  length the worker predicts from the text without building the digits.
*/
module Numerals {
  import opened Common

  type Digits = s: string | forall i | 0 <= i < |s| :: '0' <= s[i] <= '9'

  /** `mark` is `e` or `E`; `sign` is empty, `+` or `-`. */
  datatype Exponent = Exponent(mark: char, sign: string, digits: Digits)

  datatype Numeral = Numeral(negative: bool, whole: Digits, fraction: Option<Digits>, exponent: Option<Exponent>)

  predicate Valid(n: Numeral) {
    && n.whole != "" && (n.whole[0] == '0' ==> |n.whole| == 1)
    && (n.fraction.Some? ==> n.fraction.value != "")
    && (n.exponent.Some? ==>
          && n.exponent.value.digits != ""
          && n.exponent.value.mark in "eE"
          && n.exponent.value.sign in ["", "+", "-"])
  }

  function Mantissa(n: Numeral): string {
    (if n.negative then "-" else "") + n.whole + (if n.fraction.Some? then "." + n.fraction.value else "")
  }

  function ExponentText(e: Exponent): string {
    e.sign + e.digits
  }

  /** The number as JSON text. */
  function Text(n: Numeral): string {
    Mantissa(n) + (if n.exponent.Some? then [n.exponent.value.mark] + ExponentText(n.exponent.value) else "")
  }

  // ----------------------------------------------------------- its meaning

  function Value(s: Digits): nat {
    if s == "" then 0 else 10 * Value(s[..|s| - 1]) + (s[|s| - 1] as int - '0' as int)
  }

  function Power(n: Numeral): int {
    if n.exponent.None? then 0
    else
      var value: int := Value(n.exponent.value.digits);
      if n.exponent.value.sign == "-" then -value else value
  }

  function Fraction(n: Numeral): Digits {
    if n.fraction.Some? then n.fraction.value else ""
  }

  function Zeros(n: nat): Digits {
    seq(n, _ => '0')
  }

  predicate IsZero(s: Digits) {
    forall i | 0 <= i < |s| :: s[i] == '0'
  }

  function Stripped(s: Digits): Digits {
    if s != "" && s[0] == '0' then Stripped(s[1..]) else s
  }

  /** The digits before the point once the point has moved `power` places to the right. */
  function WholePart(digits: Digits, point: int): Digits {
    if point <= 0 then ""
    else if point <= |digits| then digits[..point]
    else digits + Zeros(point - |digits|)
  }

  /** The digits after it. */
  function FractionPart(digits: Digits, point: int): Digits {
    if point <= 0 then Zeros(-point) + digits
    else if point <= |digits| then digits[point..]
    else ""
  }

  function Print(negative: bool, whole: Digits, fraction: Digits): string {
    (if negative then "-" else "")
    + (if whole == "" then "0" else whole)
    + (if fraction == "" then "" else "." + fraction)
  }

  /** PostgreSQL's `numeric_out`: no exponent, no leading zeros, no sign on zero. */
  function NumericOut(n: Numeral): string {
    Print(n.negative && !IsZero(AllOf(n)), Stripped(WholePart(AllOf(n), Point(n))), FractionPart(AllOf(n), Point(n)))
  }

  function AllOf(n: Numeral): Digits {
    n.whole + Fraction(n)
  }

  function Point(n: Numeral): int {
    |n.whole| + Power(n)
  }

  // ---------------------------------------------------- the worker's length

  const I64_MAX: int := 9_223_372_036_854_775_807
  const I64_MIN: int := -9_223_372_036_854_775_808

  function Saturate(i: int): int {
    Max(I64_MIN, Min(i, I64_MAX))
  }

  /** Where the first of these characters is, or the length. */
  function Find(s: string, chars: string): nat {
    if s == "" || s[0] in chars then 0 else 1 + Find(s[1..], chars)
  }

  predicate AllDigits(s: string) {
    forall i | 0 <= i < |s| :: '0' <= s[i] <= '9'
  }

  /** `str::parse::<i64>`: an optional sign, then digits, within range. */
  function ParseI64(s: string): Option<int> {
    var digits := if s != "" && s[0] in "+-" then s[1..] else s;
    if digits == "" || !AllDigits(digits) then None
    else
      var magnitude: int := Value(digits);
      var value := if s[0] == '-' then -magnitude else magnitude;
      if I64_MIN <= value <= I64_MAX then Some(value) else None
  }

  function TrimSigns(s: string): string {
    if s != "" && s[0] in "-+" then TrimSigns(s[1..]) else s
  }

  /** The arithmetic of the prediction, which saturates at the ends of `i64`. */
  function DigitCount(integerLen: nat, fractionLen: nat, exponent: int): nat {
    var scale := Max(Saturate(Min(fractionLen, I64_MAX) - exponent), 0);
    var integerDigits := Max(Saturate(Min(integerLen, I64_MAX) + exponent), 1);
    Saturate(integerDigits + if scale > 0 then scale + 1 else 0)
  }

  function MantissaLen(mantissa: string, exponent: int): nat {
    var sign := if mantissa != "" && mantissa[0] == '-' then 1 else 0;
    var unsigned := TrimSigns(mantissa);
    var point := Min(Find(unsigned, "."), |unsigned|);
    sign + DigitCount(point, Max(|unsigned| - point - 1, 0), exponent)
  }

  function NumericTextLen(rendered: string): nat {
    var mark := Find(rendered, "eE");
    if mark >= |rendered| then |rendered|
    else
      var exponent := ParseI64(rendered[mark + 1..]);
      if exponent.None? then |rendered| else MantissaLen(rendered[..mark], exponent.value)
  }

  // --------------------------------------------------- reading the text back

  lemma {:induction false} FindPast(s: string, t: string, chars: string)
    requires forall i | 0 <= i < |s| :: s[i] !in chars
    ensures Find(s + t, chars) == |s| + Find(t, chars)
  {
    if s == "" {
      assert s + t == t;
    } else {
      FindPast(s[1..], t, chars);
      assert (s + t)[1..] == s[1..] + t;
    }
  }

  lemma MantissaHasNoMark(n: Numeral, i: nat)
    requires Valid(n) && i < |Mantissa(n)|
    ensures Mantissa(n)[i] !in "eE"
  {
  }

  lemma MarkFound(n: Numeral)
    requires Valid(n)
    ensures Find(Text(n), "eE") == |Mantissa(n)|
  {
    forall i | 0 <= i < |Mantissa(n)|
      ensures Mantissa(n)[i] !in "eE"
    {
      MantissaHasNoMark(n, i);
    }
    var tail := Text(n)[|Mantissa(n)|..];
    FindPast(Mantissa(n), tail, "eE");
    assert Text(n) == Mantissa(n) + tail;
  }

  lemma ExponentRead(e: Exponent, power: int)
    requires e.digits != "" && e.sign in ["", "+", "-"]
    requires power == (if e.sign == "-" then 0 - Value(e.digits) else Value(e.digits)) && I64_MIN <= power <= I64_MAX
    ensures ParseI64(ExponentText(e)) == Some(power)
  {
    var s := ExponentText(e);
    if e.sign == "" {
      assert s == e.digits && s[0] !in "+-";
    } else {
      assert s[1..] == e.digits && s[0] in "+-";
    }
  }

  /** The unsigned mantissa, and where its point is. */
  lemma MantissaRead(n: Numeral)
    requires Valid(n)
    ensures TrimSigns(Mantissa(n)) == Mantissa(n.(negative := false))
    ensures Find(Mantissa(n.(negative := false)), ".") == |n.whole|
    ensures Mantissa(n)[0] == '-' <==> n.negative
  {
    var m := Mantissa(n.(negative := false));
    assert m[0] == n.whole[0] && m[0] !in "-+";
    assert TrimSigns(m) == m;
    if n.negative {
      assert Mantissa(n) == "-" + m;
      assert Mantissa(n)[1..] == m;
    } else {
      assert Mantissa(n) == m;
    }
    var tail := if n.fraction.Some? then "." + n.fraction.value else "";
    FindPast(n.whole, tail, ".");
    assert m == n.whole + tail;
  }

  /** Numbers PostgreSQL accepts: it refuses exponents from half of `INT_MAX` on. */
  predicate Accepted(n: Numeral) {
    Valid(n) && -1_073_741_823 < Power(n) < 1_073_741_823 && |n.whole| + |Fraction(n)| < 0x4000_0000_0000_0000
  }

  /** The length when digits and exponent are small enough not to saturate. */
  function ExactCount(n: Numeral): int {
    var scale := Max(|Fraction(n)| - Power(n), 0);
    (if n.negative then 1 else 0) + Max(|n.whole| + Power(n), 1) + (if scale > 0 then scale + 1 else 0)
  }

  lemma MantissaPredicted(n: Numeral)
    requires Accepted(n)
    ensures MantissaLen(Mantissa(n), Power(n)) == ExactCount(n)
  {
    hide Find, TrimSigns, Power;
    MantissaRead(n);
  }

  /** What the prediction comes to, in terms of the number rather than its text. */
  lemma Predicted(n: Numeral)
    requires Accepted(n) && n.exponent.Some?
    ensures NumericTextLen(Text(n)) == ExactCount(n)
  {
    hide Find, ParseI64, MantissaLen, Mantissa, ExponentText, Value, ExactCount, Text;
    MarkFound(n);
    TextSplit(n);
    ExponentRead(n.exponent.value, Power(n));
    MantissaPredicted(n);
  }

  lemma TextSplit(n: Numeral)
    requires n.exponent.Some?
    ensures var mark := |Mantissa(n)|;
      mark < |Text(n)| && Text(n)[..mark] == Mantissa(n) && Text(n)[mark + 1..] == ExponentText(n.exponent.value)
  {
    hide Mantissa, ExponentText;
  }

  // ------------------------------------------------------- when it is right

  lemma {:induction false} StrippedLength(s: Digits)
    ensures |Stripped(s)| <= |s|
    ensures s != "" && s[0] == '0' ==> |Stripped(s)| < |s|
  {
    if s != "" && s[0] == '0' {
      StrippedLength(s[1..]);
    }
  }

  lemma PartLengths(digits: Digits, point: int)
    ensures |WholePart(digits, point)| == Max(point, 0)
    ensures |FractionPart(digits, point)| == Max(|digits| - point, 0)
  {
  }

  /** The number's text has no exponent on a zero digit that would shift it left, and is not a negative zero. */
  predicate Exact(n: Numeral)
    requires Valid(n)
  {
    (n.exponent.Some? && n.whole[0] == '0' ==> Power(n) <= 0) && !(n.negative && IsZero(AllOf(n)))
  }

  lemma PrintedWhole(n: Numeral, whole: Digits)
    requires Valid(n) && whole == Stripped(WholePart(AllOf(n), Point(n)))
    ensures Max(|whole|, 1) <= Max(Point(n), 1)
    ensures Max(|whole|, 1) == Max(Point(n), 1) <==> (n.whole[0] == '0' ==> Power(n) <= 0)
  {
    PartLengths(AllOf(n), Point(n));
    StrippedLength(WholePart(AllOf(n), Point(n)));
    if Point(n) > 0 {
      assert WholePart(AllOf(n), Point(n))[0] == n.whole[0];
    }
  }

  lemma PrintLength(negative: bool, whole: Digits, fraction: Digits)
    ensures |Print(negative, whole, fraction)| ==
      (if negative then 1 else 0) + Max(|whole|, 1) + (if fraction == "" then 0 else 1 + |fraction|)
  {
  }

  lemma PrintedLength(n: Numeral)
    requires Valid(n)
    ensures |NumericOut(n)| <= ExactCount(n)
    ensures |NumericOut(n)| == ExactCount(n) <==>
      (n.whole[0] == '0' ==> Power(n) <= 0) && !(n.negative && IsZero(AllOf(n)))
  {
    hide Stripped, WholePart, FractionPart, Power, IsZero, Fraction, Print, Valid;
    var whole := Stripped(WholePart(AllOf(n), Point(n)));
    PartLengths(AllOf(n), Point(n));
    PrintedWhole(n, whole);
    PrintLength(n.negative && !IsZero(AllOf(n)), whole, FractionPart(AllOf(n), Point(n)));
  }

  /** The prediction never falls short, and it is exact precisely on the numbers above. */
  lemma LengthExact(n: Numeral)
    requires Accepted(n)
    ensures |NumericOut(n)| <= NumericTextLen(Text(n))
    ensures |NumericOut(n)| == NumericTextLen(Text(n)) <==> Exact(n)
  {
    PrintedLength(n);
    if n.exponent.Some? {
      Predicted(n);
      hide NumericTextLen, Text, NumericOut, Power, IsZero, Fraction, ExactCount;
    } else {
      MarkFound(n);
      hide Find, NumericOut, IsZero;
    }
  }

  /** The other case is real: for `0e5` six characters are predicted, and fewer are printed. */
  lemma ZeroShifted(n: Numeral)
    requires n == Numeral(false, "0", None, Some(Exponent('e', "", "5")))
    ensures Accepted(n) && |NumericOut(n)| < NumericTextLen(Text(n)) == 6
  {
    hide NumericTextLen, NumericOut, Text;
    assert Power(n) == 5 by { assert "5"[..0] == "" && Value("") == 0; }
    hide Power;
    Predicted(n);
    LengthExact(n);
  }

  /** Without an exponent on a zero whole part, as floats and integers print, only a negative zero is misjudged. */
  lemma PrintedExact(n: Numeral)
    requires Accepted(n) && (n.exponent.Some? ==> n.whole[0] != '0')
    ensures |NumericOut(n)| == NumericTextLen(Text(n)) <==> !(n.negative && IsZero(AllOf(n)))
  {
    LengthExact(n);
  }

  /** And that is real: for `-0.0` four characters are predicted and three are printed. */
  lemma NegativeZero(n: Numeral)
    requires n == Numeral(true, "0", Some("0"), None)
    ensures Accepted(n) && Text(n) == "-0.0" && NumericTextLen(Text(n)) == 4 && NumericOut(n) == "0.0"
  {
    MarkFound(n);
    assert AllOf(n) == "00" && Point(n) == 1;
    assert WholePart(AllOf(n), 1) == "0" && FractionPart(AllOf(n), 1) == "0";
    assert Stripped("0") == "" by { assert "0"[1..] == ""; }
    hide Find, Stripped;
  }
}
