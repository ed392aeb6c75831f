/**
 Finite numbers as exact decimals, their text (`Number::toString`, section
 6.1.6.1.20 of ECMA-262), and the shift of the decimal point that edits the
 exponent in that text.
 */
module Decimals {
  import opened Prelude
  import opened Numerals

  /** `coeff` times ten to the `exp`, the shortest form: no trailing zero in `coeff`. */
  datatype Num = Num(coeff: int, exp: int) {
    predicate Canonical() {
      if coeff == 0 then exp == 0 else coeff % 10 != 0
    }
  }

  function Abs(x: int): nat {
    if x < 0 then -x else x
  }

  function Norm(coeff: int, exp: int): (n: Num)
    ensures n.Canonical()
    decreases Abs(coeff)
  {
    if coeff == 0 then Num(0, 0)
    else if coeff % 10 == 0 then Norm(coeff / 10, exp + 1)
    else Num(coeff, exp)
  }

  lemma {:induction false} NormStrips(n: Num, zeros: nat)
    requires n.Canonical() && n.coeff != 0
    ensures Norm(n.coeff * Pow10(zeros), n.exp - zeros) == n
  {
    if zeros > 0 {
      NormStrips(n, zeros - 1);
      assert n.coeff * Pow10(zeros) == 10 * (n.coeff * Pow10(zeros - 1));
      assert (10 * (n.coeff * Pow10(zeros - 1))) / 10 == n.coeff * Pow10(zeros - 1);
      assert n.coeff * Pow10(zeros) != 0;
    }
  }

  function Signed(negative: bool, magnitude: nat): int {
    if negative then 0 - magnitude else magnitude
  }

  // ----- text -----

  /** The mantissa as written, and the exponent when there is one. */
  datatype Shape = Shape(mantissa: string, e: Option<int>)

  /** The four layouts: whole, with a point inside, a small fraction, and scientific. */
  function ShapeOf(digits: string, exp: int): Shape
    requires digits != ""
  {
    var k, point := |digits|, |digits| + exp;
    if k <= point <= 21 then Shape(digits + Repeat('0', exp), None)
    else if 0 < point <= 21 then Shape(digits[..point] + "." + digits[point..], None)
    else if -6 < point <= 0 then Shape("0." + Repeat('0', -point) + digits, None)
    else Shape(if k == 1 then digits else digits[..1] + "." + digits[1..], Some(point - 1))
  }

  function SignedText(x: int): string {
    if x < 0 then "-" + Numeral(-x) else "+" + Numeral(x)
  }

  function IntText(x: int): string {
    if x < 0 then "-" + Numeral(-x) else Numeral(x)
  }

  function Sign(negative: bool): string {
    if negative then "-" else ""
  }

  function ToString(n: Num): string {
    if n.coeff == 0 then "0"
    else
      var shape := ShapeOf(Numeral(Abs(n.coeff)), n.exp);
      Sign(n.coeff < 0) + shape.mantissa + (if shape.e.Some? then "e" + SignedText(shape.e.value) else "")
  }

  function Find(s: string, c: char): (i: Option<nat>)
    ensures i.Some? ==> i.value < |s| && s[i.value] == c && c !in s[..i.value]
    ensures i.None? ==> c !in s
  {
    if s == "" then None
    else if s[0] == c then Some(0)
    else
      match Find(s[1..], c)
      case None => None
      case Some(i) => assert s[..i + 1] == [s[0]] + s[1..][..i]; Some(i + 1)
  }

  lemma {:induction false} FindJoined(a: string, c: char, b: string)
    requires c !in a
    ensures Find(a + [c] + b, c) == Some(|a|)
    ensures Find(a, c) == None
  {
    if a != "" {
      FindJoined(a[1..], c, b);
      assert (a + [c] + b)[1..] == a[1..] + [c] + b;
      assert (a + [c] + b)[0] == a[0];
    }
  }

  function ParseInt(s: string): Option<int> {
    var digits := if s != "" && (s[0] == '-' || s[0] == '+') then s[1..] else s;
    if digits == "" || !IsNumeral(digits) then None
    else Some(Signed(s[0] == '-', Value(digits)))
  }

  lemma ParseIntInverts(x: int)
    ensures ParseInt(IntText(x)) == Some(x) && ParseInt(SignedText(x)) == Some(x)
  {
    NumeralValue(Abs(x));
  }

  datatype Mantissa = Mantissa(coeff: nat, fraction: nat)

  function ParseMantissa(m: string): Option<Mantissa> {
    match Find(m, '.')
    case None => if m == "" || !IsNumeral(m) then None else Some(Mantissa(Value(m), 0))
    case Some(i) =>
      var whole, fraction := m[..i], m[i + 1..];
      if whole == "" || !IsNumeral(whole + fraction) then None else Some(Mantissa(Value(whole + fraction), |fraction|))
  }

  /** `Number(s)` on a decimal literal; `None` is NaN. */
  function ToNumber(s: string): Option<Num> {
    var negative := s != "" && s[0] == '-';
    var body := if negative then s[1..] else s;
    var split := Find(body, 'e');
    var mantissa := ParseMantissa(if split.Some? then body[..split.value] else body);
    var e := if split.Some? then ParseInt(body[split.value + 1..]) else Some(0);
    if mantissa.None? || e.None? then None
    else
      Some(Norm(Signed(negative, mantissa.value.coeff), e.value - mantissa.value.fraction))
  }

  /** The mantissa reads back as the digits, up to zeros made up for in the exponent. */
  ghost predicate ReadsBack(shape: Shape, digits: string, exp: int, zeros: nat)
    requires IsNumeral(digits)
  {
    var mantissa := ParseMantissa(shape.mantissa);
    && 'e' !in shape.mantissa && shape.mantissa != "" && IsDigit(shape.mantissa[0])
    && mantissa.Some?
    && mantissa.value.coeff == Value(digits) * Pow10(zeros)
    && shape.e.GetOr(0) - mantissa.value.fraction == exp - zeros
  }

  lemma WholeReadsBack(digits: string, exp: nat)
    requires digits != "" && IsNumeral(digits)
    ensures ReadsBack(Shape(digits + Repeat('0', exp), None), digits, exp, exp)
  {
    hide Value, Find;
    ZerosValue(exp);
    ValueConcat(digits, Repeat('0', exp));
    FindJoined(digits + Repeat('0', exp), '.', "");
  }

  lemma PointReadsBack(digits: string, exp: int, point: nat, e: Option<int>)
    requires digits != "" && IsNumeral(digits) && 0 < point <= |digits| && e.GetOr(0) == exp + |digits| - point
    ensures ReadsBack(Shape(digits[..point] + "." + digits[point..], e), digits, exp, 0)
  {
    hide Value, Find, ParseMantissa;
    PointInside(digits[..point], digits[point..]);
    assert digits[..point] + digits[point..] == digits;
  }

  lemma SmallReadsBack(digits: string, zeros: nat)
    requires digits != "" && IsNumeral(digits)
    ensures ReadsBack(Shape("0." + Repeat('0', zeros) + digits, None), digits, 0 - zeros - |digits|, 0)
  {
    hide Value, Find, ParseMantissa;
    var fraction := Repeat('0', zeros) + digits;
    ZerosValue(zeros);
    ValueConcat(Repeat('0', zeros), digits);
    ZerosValue(1);
    assert Repeat('0', 1) == "0";
    ValueConcat("0", fraction);
    PointInside("0", fraction);
    assert "0." + Repeat('0', zeros) + digits == "0" + "." + fraction;
  }

  lemma BareReadsBack(digits: string, exp: int)
    requires digits != "" && IsNumeral(digits)
    ensures ReadsBack(Shape(digits, Some(exp)), digits, exp, 0)
  {
    hide Value, Find;
    FindJoined(digits, '.', "");
  }

  /** Each layout reads back. */
  lemma ShapeReadsBack(digits: string, exp: int) returns (zeros: nat)
    requires digits != "" && IsNumeral(digits)
    ensures ReadsBack(ShapeOf(digits, exp), digits, exp, zeros)
  {
    hide ReadsBack;
    var k, point := |digits|, |digits| + exp;
    zeros := 0;
    if k <= point <= 21 {
      zeros := exp;
      WholeReadsBack(digits, exp);
    } else if 0 < point <= 21 {
      PointReadsBack(digits, exp, point, None);
    } else if -6 < point <= 0 {
      SmallReadsBack(digits, -point);
    } else if k == 1 {
      BareReadsBack(digits, exp);
    } else {
      PointReadsBack(digits, exp, 1, Some(point - 1));
    }
  }

  lemma PointInside(whole: string, fraction: string)
    requires whole != "" && IsNumeral(whole) && IsNumeral(fraction)
    ensures IsNumeral(whole + fraction)
    ensures ParseMantissa(whole + "." + fraction) == Some(Mantissa(Value(whole + fraction), |fraction|))
    ensures 'e' !in whole + "." + fraction
  {
    FindJoined(whole, '.', fraction);
    var m := whole + "." + fraction;
    assert m[..|whole|] == whole && m[|whole| + 1..] == fraction;
  }

  /** A mantissa, signed or not, with an exponent behind it or without. */
  lemma ReadsWithExponent(negative: bool, mantissa: string, exponent: string)
    requires 'e' !in mantissa && mantissa != "" && IsDigit(mantissa[0])
    requires ParseMantissa(mantissa).Some? && ParseInt(exponent).Some?
    ensures var m := ParseMantissa(mantissa).value;
            && ToNumber(Sign(negative) + mantissa + "e" + exponent)
               == Some(Norm(Signed(negative, m.coeff), ParseInt(exponent).value - m.fraction))
            && ToNumber(Sign(negative) + mantissa) == Some(Norm(Signed(negative, m.coeff), 0 - m.fraction))
  {
    hide ParseMantissa, ParseInt, Find, Norm;
    FindJoined(mantissa, 'e', exponent);
    var body := mantissa + ['e'] + exponent;
    assert body[..|mantissa|] == mantissa && body[|mantissa| + 1..] == exponent;
    var text := Sign(negative) + mantissa + "e" + exponent;
    if negative {
      assert text[0] == '-' && text[1..] == body;
      assert (Sign(negative) + mantissa)[1..] == mantissa;
    } else {
      assert text == body && Sign(negative) + mantissa == mantissa;
    }
  }

  /** What a layout stands for, whatever the exponent written behind its mantissa. */
  lemma ShapeStandsFor(n: Num, shape: Shape, zeros: nat, e: int, exponent: string)
    requires n.coeff != 0 && (n.coeff % 10 != 0)
    requires ReadsBack(shape, Numeral(Abs(n.coeff)), n.exp, zeros) && ParseInt(exponent) == Some(e)
    ensures ToNumber(Sign(n.coeff < 0) + shape.mantissa + "e" + exponent)
            == Some(Num(n.coeff, n.exp + e - shape.e.GetOr(0)))
    ensures ToNumber(Sign(n.coeff < 0) + shape.mantissa) == Some(Num(n.coeff, n.exp - shape.e.GetOr(0)))
  {
    hide ToNumber, ParseMantissa, ParseInt, Norm, Pow10;
    NumeralValue(Abs(n.coeff));
    ReadsWithExponent(n.coeff < 0, shape.mantissa, exponent);
    assert Signed(n.coeff < 0, Abs(n.coeff) * Pow10(zeros))
           == n.coeff * Pow10(zeros) by { SignedScale(n.coeff, Pow10(zeros)); }
    NormStrips(Num(n.coeff, n.exp + e - shape.e.GetOr(0)), zeros);
    NormStrips(Num(n.coeff, n.exp - shape.e.GetOr(0)), zeros);
  }

  lemma SignedScale(coeff: int, p: nat)
    ensures Signed(coeff < 0, Abs(coeff) * p) == coeff * p
  {
  }

  /** Text and back is the identity, for every number and every layout. */
  lemma TextRoundTrip(n: Num)
    requires n.Canonical()
    ensures ToNumber(ToString(n)) == Some(n)
  {
    hide ToNumber, ParseInt, ReadsBack, ShapeOf;
    if n.coeff == 0 {
      ZeroText();
    } else {
      var shape := ShapeOf(Numeral(Abs(n.coeff)), n.exp);
      var zeros := ShapeReadsBack(Numeral(Abs(n.coeff)), n.exp);
      var e := shape.e.GetOr(0);
      ParseIntInverts(e);
      ShapeStandsFor(n, shape, zeros, e, SignedText(e));
      var signed := Sign(n.coeff < 0) + shape.mantissa;
      assert ToString(n) == if shape.e.Some? then signed + "e" + SignedText(e) else signed;
    }
  }

  lemma ZeroText()
    ensures ParseMantissa("0") == Some(Mantissa(0, 0)) && Find("0", 'e') == None
    ensures ToNumber("0") == Some(Num(0, 0))
  {
    ZerosValue(1);
    assert Repeat('0', 1) == "0";
    FindJoined("0", '.', "");
    FindJoined("0", 'e', "");
  }

  // ----- shiftDecimal -----

  /** Split the text at its exponent and write the exponent anew. */
  function ShiftDecimal(n: Num, exp: int): Option<Num> {
    var text := ToString(n);
    var split := Find(text, 'e');
    var mantissa := if split.Some? then text[..split.value] else text;
    var e := if split.Some? then ParseInt(text[split.value + 1..]) else Some(0);
    if e.None? then None else ToNumber(mantissa + "e" + IntText(e.value + exp))
  }

  /** Editing the text moves the point and nothing else, in every layout. */
  lemma ShiftIsExact(n: Num, exp: int)
    requires n.Canonical()
    ensures ShiftDecimal(n, exp) == Some(if n.coeff == 0 then n else Num(n.coeff, n.exp + exp))
  {
    hide ToNumber, ParseInt, ReadsBack, ShapeOf, ToString, Find;
    if n.coeff == 0 {
      ZeroShifts(exp);
    } else {
      var shape := ShapeOf(Numeral(Abs(n.coeff)), n.exp);
      var zeros := ShapeReadsBack(Numeral(Abs(n.coeff)), n.exp);
      SplitsAtExponent(n, zeros);
      var e := shape.e.GetOr(0) + exp;
      ParseIntInverts(e);
      ShapeStandsFor(n, shape, zeros, e, IntText(e));
    }
  }

  lemma ZeroShifts(exp: int)
    ensures ShiftDecimal(Num(0, 0), exp) == Some(Num(0, 0))
  {
    hide ToNumber, ParseMantissa, ParseInt, Find;
    ZeroText();
    ParseIntInverts(exp);
    ReadsWithExponent(false, "0", IntText(exp));
    assert Sign(false) + "0" + "e" + IntText(exp) == "0" + "e" + IntText(exp);
  }

  lemma SplitsAtExponent(n: Num, zeros: nat)
    requires n.coeff != 0 && ReadsBack(ShapeOf(Numeral(Abs(n.coeff)), n.exp), Numeral(Abs(n.coeff)), n.exp, zeros)
    ensures var shape, text := ShapeOf(Numeral(Abs(n.coeff)), n.exp), ToString(n);
            var signed := Sign(n.coeff < 0) + shape.mantissa;
            && (shape.e.None? ==> Find(text, 'e') == None && text == signed)
            && (shape.e.Some? ==> Find(text, 'e') == Some(|signed|) && text[..|signed|] == signed
                                  && ParseInt(text[|signed| + 1..]) == shape.e)
  {
    hide ParseInt, Find, ShapeOf, ParseMantissa, Value, Numeral;
    var shape := ShapeOf(Numeral(Abs(n.coeff)), n.exp);
    var signed := Sign(n.coeff < 0) + shape.mantissa;
    var text := ToString(n);
    if shape.e.Some? {
      ParseIntInverts(shape.e.value);
      FindJoined(signed, 'e', SignedText(shape.e.value));
      assert text == signed + ['e'] + SignedText(shape.e.value);
      assert text[..|signed|] == signed && text[|signed| + 1..] == SignedText(shape.e.value);
    } else {
      FindJoined(signed, 'e', "");
      assert text == signed;
    }
  }

  /** Shifts compose, and a shift back undoes a shift. */
  lemma ShiftsCompose(n: Num, a: int, b: int)
    requires n.Canonical()
    ensures ShiftDecimal(n, a).Some? && ShiftDecimal(ShiftDecimal(n, a).value, b) == ShiftDecimal(n, a + b)
    ensures ShiftDecimal(n, 0) == Some(n)
  {
    hide ShiftDecimal;
    ShiftIsExact(n, a);
    ShiftIsExact(ShiftDecimal(n, a).value, b);
    ShiftIsExact(n, a + b);
    ShiftIsExact(n, 0);
  }
}
