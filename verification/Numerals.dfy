/** Decimal numerals: writing a number, reading it back, padding, and string order. */
module Numerals {

  predicate IsDigit(c: char) {
    '0' <= c <= '9'
  }

  predicate IsNumeral(s: string) {
    forall i :: 0 <= i < |s| ==> IsDigit(s[i])
  }

  function Pow10(n: nat): (p: nat)
    ensures p > 0
  {
    if n == 0 then 1 else 10 * Pow10(n - 1)
  }

  function Digit(d: nat): char
    requires d < 10
  {
    '0' + d as char
  }

  function Numeral(n: nat): (s: string)
    ensures s != "" && IsNumeral(s)
  {
    if n < 10 then [Digit(n)] else Numeral(n / 10) + [Digit(n % 10)]
  }

  /** The number a string of digits stands for; leading zeros are allowed. */
  function Value(s: string): nat
    requires IsNumeral(s)
  {
    if s == "" then 0 else 10 * Value(s[..|s| - 1]) + (s[|s| - 1] - '0') as nat
  }

  lemma {:induction false} NumeralValue(n: nat)
    ensures Value(Numeral(n)) == n
  {
    if n >= 10 {
      NumeralValue(n / 10);
      assert Numeral(n)[..|Numeral(n)| - 1] == Numeral(n / 10);
    }
  }

  lemma {:induction false} ValueConcat(a: string, b: string)
    requires IsNumeral(a) && IsNumeral(b)
    ensures IsNumeral(a + b) && Value(a + b) == Value(a) * Pow10(|b|) + Value(b)
  {
    if b == "" {
      assert a + b == a;
    } else {
      var front := b[..|b| - 1];
      ValueConcat(a, front);
      assert (a + b)[..|a + b| - 1] == a + front;
      TimesTen(Value(a), Pow10(|front|), Value(front));
    }
  }

  lemma TimesTen(x: nat, p: nat, y: nat)
    ensures 10 * (x * p + y) == x * (10 * p) + 10 * y
  {
  }

  lemma {:induction false} ValueBelow(s: string)
    requires IsNumeral(s)
    ensures Value(s) < Pow10(|s|)
  {
    if s != "" {
      ValueBelow(s[..|s| - 1]);
    }
  }

  function Repeat(c: char, n: nat): string {
    seq(n, _ => c)
  }

  lemma {:induction false} ZerosValue(n: nat)
    ensures IsNumeral(Repeat('0', n)) && Value(Repeat('0', n)) == 0
  {
    if n > 0 {
      ZerosValue(n - 1);
      assert Repeat('0', n)[..n - 1] == Repeat('0', n - 1);
    }
  }

  /** `String.prototype.padStart`. */
  function PadStart(s: string, width: nat, c: char): (padded: string)
    ensures |padded| == if |s| >= width then |s| else width
  {
    if |s| >= width then s else Repeat(c, width - |s|) + s
  }

  lemma PadStartValue(s: string, width: nat)
    requires IsNumeral(s)
    ensures IsNumeral(PadStart(s, width, '0')) && Value(PadStart(s, width, '0')) == Value(s)
  {
    if |s| < width {
      ZerosValue(width - |s|);
      ValueConcat(Repeat('0', width - |s|), s);
    }
  }

  /** A number below 10^n takes at most n digits. */
  lemma {:induction false} NumeralLength(m: nat, n: nat)
    requires n > 0
    ensures |Numeral(m)| <= n <==> m < Pow10(n)
  {
    if n == 1 {
    } else if m < 10 {
      assert Pow10(n) >= 10 by { assert Pow10(n - 1) >= 1; }
    } else {
      NumeralLength(m / 10, n - 1);
    }
  }

  // ----- string order -----

  predicate LexLess(a: string, b: string) {
    if b == "" then false
    else if a == "" then true
    else a[0] < b[0] || (a[0] == b[0] && LexLess(a[1..], b[1..]))
  }

  lemma {:induction false} LexLessExtends(a: string, b: string, x: string, y: string)
    requires |a| == |b| && a != b
    ensures LexLess(a + x, b + y) <==> LexLess(a, b)
  {
    if a != "" {
      assert (a + x)[1..] == a[1..] + x && (b + y)[1..] == b[1..] + y;
      if a[0] == b[0] {
        assert a == [a[0]] + a[1..] && b == [b[0]] + b[1..];
        LexLessExtends(a[1..], b[1..], x, y);
      }
    }
  }

  lemma ValueOfHead(s: string)
    requires IsNumeral(s) && s != ""
    ensures Value(s) == (s[0] - '0') as nat * Pow10(|s| - 1) + Value(s[1..])
  {
    assert Value([s[0]]) == (s[0] - '0') as nat by { assert [s[0]][..0] == ""; }
    assert s == [s[0]] + s[1..];
    hide Value, Pow10;
    ValueConcat([s[0]], s[1..]);
  }

  /** Numerals of one length are ordered as the numbers are. */
  lemma {:induction false} LexLessIsLess(a: string, b: string)
    requires |a| == |b| && IsNumeral(a) && IsNumeral(b)
    ensures LexLess(a, b) <==> Value(a) < Value(b)
    ensures Value(a) == Value(b) ==> a == b
  {
    if a != "" {
      ValueOfHead(a);
      ValueOfHead(b);
      ValueBelow(a[1..]);
      ValueBelow(b[1..]);
      LexLessIsLess(a[1..], b[1..]);
      HeadDecides((a[0] - '0') as nat, (b[0] - '0') as nat, Value(a[1..]), Value(b[1..]), Pow10(|a| - 1));
      assert a == [a[0]] + a[1..] && b == [b[0]] + b[1..];
    }
  }

  lemma HeadDecides(x: nat, y: nat, u: nat, v: nat, p: nat)
    requires u < p && v < p
    ensures x < y ==> x * p + u < y * p + v
    ensures x > y ==> x * p + u > y * p + v
  {
    if x < y {
      assert (x + 1) * p <= y * p;
    } else if x > y {
      assert (y + 1) * p <= x * p;
    }
  }
}
