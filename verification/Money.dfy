/**
 Money primitives: rounding to whole öre on the number's decimal text,
 truncation to whole kronor, comparison to the öre and sums.
 */
module Money {
  import opened Prelude
  import opened Numerals
  import opened Decimals

  // ----- what a number is worth -----

  function Scale(e: int): (r: real)
    ensures r > 0.0
    decreases Abs(e)
  {
    if e == 0 then 1.0 else if e > 0 then 10.0 * Scale(e - 1) else Scale(e + 1) / 10.0
  }

  lemma {:induction false} ScaleAdds(a: int, b: int)
    ensures Scale(a + b) == Scale(a) * Scale(b)
    decreases Abs(b)
  {
    hide Scale;
    ScaleZero();
    if b > 0 {
      ScaleAdds(a, b - 1);
      ScaleStep(a + b - 1);
      ScaleStep(b - 1);
    } else if b < 0 {
      ScaleAdds(a, b + 1);
      ScaleStep(a + b);
      ScaleStep(b);
    }
  }

  lemma ScaleStep(e: int)
    ensures Scale(e + 1) == 10.0 * Scale(e)
  {
  }

  lemma {:induction false} ScaleIsPow10(n: nat)
    ensures Scale(n) == Pow10(n) as real
  {
    if n > 0 {
      ScaleIsPow10(n - 1);
    }
  }

  function Val(n: Num): real {
    n.coeff as real * Scale(n.exp)
  }

  lemma {:induction false} NormKeepsVal(coeff: int, exp: int)
    ensures Val(Norm(coeff, exp)) == coeff as real * Scale(exp)
    decreases Abs(coeff)
  {
    if coeff != 0 && coeff % 10 == 0 {
      NormKeepsVal(coeff / 10, exp + 1);
      ScaleStep(exp);
      assert coeff == 10 * (coeff / 10);
      assert (coeff / 10) as real * (10.0 * Scale(exp)) == coeff as real * Scale(exp);
    }
  }

  /** Two shortest forms of the same number are the same. */
  lemma ValIsInjective(a: Num, b: Num)
    requires a.Canonical() && b.Canonical() && Val(a) == Val(b)
    ensures a == b
  {
    if a.coeff == 0 || b.coeff == 0 {
      ZeroVal(a);
      ZeroVal(b);
    } else if a.exp <= b.exp {
      SameValSameNum(a, b);
    } else {
      SameValSameNum(b, a);
    }
  }

  lemma ZeroVal(n: Num)
    ensures Val(n) == 0.0 <==> n.coeff == 0
    ensures Val(n) > 0.0 <==> n.coeff > 0
  {
    assert Scale(n.exp) > 0.0;
  }

  lemma SameValSameNum(a: Num, b: Num)
    requires a.Canonical() && b.Canonical() && Val(a) == Val(b) && a.coeff != 0 && b.coeff != 0 && a.exp <= b.exp
    ensures a == b
  {
    hide Scale;
    var d := b.exp - a.exp;
    AtExponent(b, a.exp);
    var x, y, scale := a.coeff as real, (b.coeff * Pow10(d)) as real, Scale(a.exp);
    Cancel(x, y, scale, Val(a));
    if d > 0 {
      TenDivides(b.coeff, d);
    }
  }

  lemma TenDivides(c: int, d: nat)
    requires d > 0
    ensures (c * Pow10(d)) % 10 == 0
  {
    assert c * Pow10(d) == 10 * (c * Pow10(d - 1));
  }

  lemma Cancel(x: real, y: real, s: real, product: real)
    requires s > 0.0 && x * s == product && y * s == product
    ensures x == y
  {
    assert (x - y) * s == 0.0;
  }

  /** Addition without the rounding of binary floating point. */
  function Plus(a: Num, b: Num): (sum: Num)
    ensures sum.Canonical()
  {
    var e := if a.exp <= b.exp then a.exp else b.exp;
    Norm(a.coeff * Pow10(a.exp - e) + b.coeff * Pow10(b.exp - e), e)
  }

  lemma PlusAdds(a: Num, b: Num)
    ensures Val(Plus(a, b)) == Val(a) + Val(b)
  {
    hide Scale, Pow10, Norm, Val;
    var e := if a.exp <= b.exp then a.exp else b.exp;
    NormKeepsVal(a.coeff * Pow10(a.exp - e) + b.coeff * Pow10(b.exp - e), e);
    AtExponent(a, e);
    AtExponent(b, e);
    Distribute((a.coeff * Pow10(a.exp - e)) as real, (b.coeff * Pow10(b.exp - e)) as real, Scale(e));
  }

  lemma Distribute(x: real, y: real, s: real)
    ensures (x + y) * s == x * s + y * s
  {
  }

  lemma Regroup(c: int, p: int, s: real)
    ensures (c * p) as real * s == c as real * (s * p as real)
  {
    assert (c * p) as real == c as real * p as real;
    assert (c as real * p as real) * s == c as real * (p as real * s);
  }

  lemma AtExponent(n: Num, e: int)
    requires e <= n.exp
    ensures (n.coeff * Pow10(n.exp - e)) as real * Scale(e) == Val(n)
  {
    hide Scale, Pow10;
    ScaleAdds(e, n.exp - e);
    ScaleIsPow10(n.exp - e);
    Regroup(n.coeff, Pow10(n.exp - e), Scale(e));
  }

  function Negate(n: Num): Num {
    Num(-n.coeff, n.exp)
  }

  lemma ShiftScales(n: Num, exp: int)
    requires n.Canonical()
    ensures ShiftDecimal(n, exp).Some? && ShiftDecimal(n, exp).value.Canonical()
    ensures Val(ShiftDecimal(n, exp).value) == Val(n) * Scale(exp)
  {
    hide Scale, ShiftDecimal;
    ShiftIsExact(n, exp);
    ScaleAdds(n.exp, exp);
    if n.coeff == 0 {
      assert Val(n) == 0.0;
    } else {
      assert n.coeff as real * (Scale(n.exp) * Scale(exp)) == n.coeff as real * Scale(n.exp) * Scale(exp);
    }
  }

  // ----- roundOre -----

  /** `Math.round` (section 21.3.2.28 of ECMA-262): the nearest integer, a tie toward positive infinity. */
  function MathRound(n: Num): Num {
    Norm((Val(n) + 0.5).Floor, 0)
  }

  /** A number; anything else passes through before the text is looked at. */
  function RoundOre(n: Num): (r: Num)
    requires n.Canonical()
    ensures r.Canonical()
  {
    if n.coeff == 0 then n
    else
      ShiftScales(n, 2);
      var rounded := MathRound(ShiftDecimal(n, 2).value);
      ShiftScales(rounded, -2);
      ShiftDecimal(rounded, -2).value
  }

  /** `n` is a whole number of öre. */
  ghost predicate IsOre(n: Num, ore: int) {
    Val(n) * 100.0 == ore as real
  }

  /** The result is a whole number of öre, the nearest one, and of two equally near the higher. */
  lemma RoundOreIsNearest(n: Num) returns (ore: int)
    requires n.Canonical()
    ensures IsOre(RoundOre(n), ore)
    ensures ore as real - 0.5 <= Val(n) * 100.0 < ore as real + 0.5
  {
    ScaleTwo();
    hide Scale, ShiftDecimal, Val, Norm;
    if n.coeff == 0 {
      ore := 0;
      ZeroVal(n);
    } else {
      ShiftScales(n, 2);
      var shifted := ShiftDecimal(n, 2).value;
      ore := (Val(shifted) + 0.5).Floor;
      NormKeepsVal(ore, 0);
      ScaleZero();
      ShiftScales(MathRound(shifted), -2);
    }
  }

  lemma ScaleZero()
    ensures Scale(0) == 1.0
  {
  }

  lemma ScaleTwo()
    ensures Scale(2) == 100.0 && Scale(-2) == 0.01
  {
    assert Scale(1) == 10.0 && Scale(-1) == 0.1;
  }

  /** No whole number of öre is nearer, and one just as near is lower. */
  lemma NothingIsNearer(n: Num, other: Num, m: int)
    requires n.Canonical() && IsOre(other, m)
    ensures Distance(n, RoundOre(n)) <= Distance(n, other)
    ensures Distance(n, RoundOre(n)) == Distance(n, other) ==> Val(other) <= Val(RoundOre(n))
    ensures Distance(n, RoundOre(n)) <= 0.005
  {
    hide Val, RoundOre;
    var ore := RoundOreIsNearest(n);
    Nearest(Val(n), Val(RoundOre(n)), Val(other), ore, m);
  }

  lemma Nearest(x: real, r: real, o: real, ore: int, m: int)
    requires r * 100.0 == ore as real && o * 100.0 == m as real && ore as real - 0.5 <= x * 100.0 < ore as real + 0.5
    ensures Gap(x, r) <= Gap(x, o) && Gap(x, r) <= 0.005
    ensures Gap(x, r) == Gap(x, o) ==> o <= r
  {
    if m < ore {
      assert o * 100.0 <= r * 100.0 - 1.0;
    } else if m > ore {
      assert o * 100.0 >= r * 100.0 + 1.0;
    }
  }

  function Gap(x: real, y: real): real {
    if x <= y then y - x else x - y
  }

  function Distance(a: Num, b: Num): real {
    Gap(Val(a), Val(b))
  }

  lemma RoundOreIsIdempotent(n: Num)
    requires n.Canonical()
    ensures RoundOre(RoundOre(n)) == RoundOre(n)
  {
    hide Val, RoundOre;
    var ore := RoundOreIsNearest(n);
    OreStays(RoundOre(n), ore);
  }

  lemma OreStays(n: Num, ore: int)
    requires n.Canonical() && IsOre(n, ore)
    ensures RoundOre(n) == n
  {
    hide Val, RoundOre;
    var again := RoundOreIsNearest(n);
    assert again == ore;
    ValIsInjective(RoundOre(n), n);
  }

  lemma RoundOreIsMonotone(a: Num, b: Num)
    requires a.Canonical() && b.Canonical() && Val(a) <= Val(b)
    ensures Val(RoundOre(a)) <= Val(RoundOre(b))
  {
    hide Val, RoundOre;
    var x := RoundOreIsNearest(a);
    var y := RoundOreIsNearest(b);
    assert x <= y;
  }

  /** Whole öre can be added before the rounding or after it. */
  lemma RoundOreCommutesWithOre(n: Num, other: Num, m: int)
    requires n.Canonical() && IsOre(other, m)
    ensures RoundOre(Plus(n, other)) == Plus(RoundOre(n), other)
  {
    hide Val, RoundOre, Plus;
    var x := RoundOreIsNearest(n);
    var y := RoundOreIsNearest(Plus(n, other));
    PlusAdds(n, other);
    PlusAdds(RoundOre(n), other);
    assert y == x + m;
    ValIsInjective(RoundOre(Plus(n, other)), Plus(RoundOre(n), other));
  }

  /** Rounding is not symmetric: exactly at the halves, the negative is rounded the other way. */
  lemma RoundOreIsOddExceptAtHalves(n: Num, floor: int)
    requires n.Canonical() && floor as real <= Val(n) * 100.0 < floor as real + 1.0
    ensures RoundOre(Negate(n)) == Negate(RoundOre(n)) <==> Val(n) * 100.0 != floor as real + 0.5
  {
    hide Val, RoundOre, Negate;
    NegateVal(n);
    NegateVal(RoundOre(n));
    var x := RoundOreIsNearest(n);
    var y := RoundOreIsNearest(Negate(n));
    HalvesDecide(Val(n) * 100.0, floor, x, y);
    if y == -x {
      ValIsInjective(RoundOre(Negate(n)), Negate(RoundOre(n)));
    }
  }

  lemma HalvesDecide(v: real, floor: int, x: int, y: int)
    requires floor as real <= v < floor as real + 1.0
    requires x as real - 0.5 <= v < x as real + 0.5 && y as real - 0.5 <= -v < y as real + 0.5
    ensures y == -x <==> v != floor as real + 0.5
  {
    if v < floor as real + 0.5 {
      assert x == floor && y == -floor;
    } else if v == floor as real + 0.5 {
      assert x == floor + 1 && y == -floor;
    } else {
      assert x == floor + 1 && y == -floor - 1;
    }
  }

  lemma NegateVal(n: Num)
    ensures Val(Negate(n)) == -Val(n)
    ensures n.Canonical() ==> Negate(n).Canonical()
  {
    assert (-n.coeff) as real * Scale(n.exp) == -(n.coeff as real * Scale(n.exp));
  }

  // ----- truncateToWholeKronor -----

  /** `Math.trunc`. */
  function Trunc(x: real): int {
    if x >= 0.0 then x.Floor else -((-x).Floor)
  }

  function TruncateToWholeKronor(n: Num): (r: Num)
    requires n.Canonical()
    ensures r.Canonical()
  {
    Norm(Trunc(Val(RoundOre(n))), 0)
  }

  /** Strictly less than one krona is dropped from the öre amount, always toward zero. */
  lemma TruncationDropsOre(n: Num) returns (kronor: int)
    requires n.Canonical()
    ensures Val(TruncateToWholeKronor(n)) == kronor as real
    ensures Val(RoundOre(n)) >= 0.0 ==> 0.0 <= kronor as real <= Val(RoundOre(n)) < kronor as real + 1.0
    ensures Val(RoundOre(n)) <= 0.0 ==> kronor as real - 1.0 < Val(RoundOre(n)) <= kronor as real <= 0.0
  {
    hide Val, RoundOre, Norm, Scale;
    kronor := Trunc(Val(RoundOre(n)));
    NormKeepsVal(kronor, 0);
    ScaleZero();
  }

  /** Whole kronor in an amount of öre, toward zero. */
  function KronorIn(ore: int): int {
    if ore >= 0 then ore / 100 else -((-ore) / 100)
  }

  lemma TruncatesRoundedOre(n: Num, ore: int)
    requires n.Canonical() && IsOre(RoundOre(n), ore)
    ensures Val(TruncateToWholeKronor(n)) == KronorIn(ore) as real
  {
    hide Val, RoundOre, TruncateToWholeKronor;
    var kronor := TruncationDropsOre(n);
    if ore >= 0 {
      assert 100 * kronor <= ore < 100 * kronor + 100;
    } else {
      assert 100 * kronor - 100 < ore <= 100 * kronor;
    }
  }

  function LastHalf(k: nat): real {
    100.0 * k as real + 99.5
  }

  /** 100k + 99.5 öre either side of zero: the half where rounding moves the amount to the next krona. */
  ghost predicate AtLastHalf(ore: real) {
    exists k: nat :: ore == LastHalf(k) || ore == -LastHalf(k)
  }

  /**
   A credit is truncated as the debit it mirrors, whole öre or not, except at
   the last half öre of a krona: k + 0.995 is declared as k + 1, its negative as −k.
   */
  lemma TruncationIsOddExceptAtLastHalves(n: Num)
    requires n.Canonical()
    ensures TruncateToWholeKronor(Negate(n)) == Negate(TruncateToWholeKronor(n)) <==> !AtLastHalf(Val(n) * 100.0)
  {
    hide Val, RoundOre, TruncateToWholeKronor, Negate, AtLastHalf;
    NegateVal(n);
    NegateVal(TruncateToWholeKronor(n));
    var x := RoundOreIsNearest(n);
    var y := RoundOreIsNearest(Negate(n));
    TruncatesRoundedOre(n, x);
    TruncatesRoundedOre(Negate(n), y);
    LastHalvesDecide(Val(n) * 100.0, x, y);
    if KronorIn(y) == -KronorIn(x) {
      ValIsInjective(TruncateToWholeKronor(Negate(n)), Negate(TruncateToWholeKronor(n)));
    }
  }

  lemma LastHalvesDecide(ore: real, x: int, y: int)
    requires x as real - 0.5 <= ore < x as real + 0.5 && y as real - 0.5 <= -ore < y as real + 0.5
    ensures KronorIn(y) == -KronorIn(x) <==> !AtLastHalf(ore)
  {
    if y == -x {
      NoHalf(ore, x);
    } else {
      assert ore == x as real - 0.5 && y == 1 - x;
      HalfAt(ore, x);
    }
  }

  lemma NoHalf(ore: real, x: int)
    requires x as real - 0.5 <= ore < x as real + 0.5 && -(x as real) - 0.5 <= -ore < -(x as real) + 0.5
    ensures !AtLastHalf(ore) && KronorIn(-x) == -KronorIn(x)
  {
    forall k: nat ensures ore != LastHalf(k) && ore != -LastHalf(k) {
      assert ore - x as real != 0.5 && ore - x as real != -0.5;
      NotAHalf(ore, x, 100 * k + 99);
      NotAHalf(ore, x, -100 * k - 100);
    }
  }

  lemma NotAHalf(ore: real, x: int, f: int)
    requires -0.5 < ore - x as real < 0.5
    ensures ore != f as real + 0.5
  {
    if x <= f {
      assert x as real <= f as real;
    } else {
      assert x as real >= f as real + 1.0;
    }
  }

  lemma HalfAt(ore: real, x: int)
    requires ore == x as real - 0.5
    ensures KronorIn(1 - x) == -KronorIn(x) <==> !AtLastHalf(ore)
  {
    if x > 0 && x % 100 == 0 {
      var k: nat := x / 100 - 1;
      assert x == 100 * k + 100;
      assert ore == LastHalf(k);
    } else if x <= 0 && (-x) % 100 == 99 {
      var k: nat := (-x) / 100;
      assert -x == 100 * k + 99;
      assert ore == -LastHalf(k);
    } else {
      forall k: nat ensures ore != LastHalf(k) && ore != -LastHalf(k) {
        assert x != 100 * k + 100 && x != -100 * k - 99;
      }
    }
  }

  /** There is such an amount for every krona. */
  lemma LastHalvesExist(k: nat)
    ensures AtLastHalf(Val(Norm(1000 * k + 995, -3)) * 100.0)
  {
    NormKeepsVal(1000 * k + 995, -3);
    assert Scale(-1) == 0.1 && Scale(-2) == 0.01 && Scale(-3) == 0.001;
    ThousandthsOre(Val(Norm(1000 * k + 995, -3)), k);
  }

  lemma ThousandthsOre(v: real, k: nat)
    requires v == (1000 * k + 995) as real * 0.001
    ensures AtLastHalf(v * 100.0)
  {
    assert v * 100.0 == LastHalf(k);
  }

  // ----- comparison -----

  const ORE_TOLERANCE := 0.005

  predicate EqualOre(a: Num, b: Num) {
    Distance(a, b) <= ORE_TOLERANCE
  }

  predicate IsZeroOre(n: Num) {
    (if Val(n) < 0.0 then -Val(n) else Val(n)) <= ORE_TOLERANCE
  }

  /** Within half an öre, the half included. */
  lemma EqualOreIsWithinHalf(a: Num, b: Num)
    requires a.Canonical() && b.Canonical()
    ensures EqualOre(a, b) <==> -0.005 <= Val(a) - Val(b) <= 0.005
    ensures IsZeroOre(a) <==> -0.005 <= Val(a) <= 0.005
  {
  }

  /** On whole öre the tolerance is equality. */
  lemma EqualOreIsEquality(a: Num, b: Num, m: int, k: int)
    requires a.Canonical() && b.Canonical() && IsOre(a, m) && IsOre(b, k)
    ensures EqualOre(a, b) <==> a == b
    ensures IsZeroOre(a) <==> a == Num(0, 0)
  {
    hide Val, RoundOre;
    if EqualOre(a, b) {
      assert m == k;
      ValIsInjective(a, b);
    }
    ZeroVal(a);
    if IsZeroOre(a) {
      assert m == 0;
    }
  }

  // ----- sumOre -----

  /** `reduce` from the left. */
  function Total(values: seq<Num>): (sum: Num)
    ensures sum.Canonical()
  {
    if values == [] then Num(0, 0) else Plus(Total(values[..|values| - 1]), values[|values| - 1])
  }

  function SumOre(values: seq<Num>): Num {
    RoundOre(Total(values))
  }

  function Worth(values: seq<Num>): real {
    if values == [] then 0.0 else Worth(values[..|values| - 1]) + Val(values[|values| - 1])
  }

  lemma {:induction false} TotalIsWorth(values: seq<Num>)
    ensures Val(Total(values)) == Worth(values)
  {
    if values != [] {
      TotalIsWorth(values[..|values| - 1]);
      PlusAdds(Total(values[..|values| - 1]), values[|values| - 1]);
    }
  }

  lemma {:induction false} WorthWithout(values: seq<Num>, i: nat)
    requires i < |values|
    ensures Worth(values) == Worth(values[..i] + values[i + 1..]) + Val(values[i])
  {
    var front := values[..|values| - 1];
    if i == |values| - 1 {
      assert values[..i] + values[i + 1..] == front;
    } else {
      WorthWithout(front, i);
      var rest := values[..i] + values[i + 1..];
      assert rest[..|rest| - 1] == front[..i] + front[i + 1..];
    }
  }

  /** The order of the addends does not matter. */
  lemma {:induction false} WorthOfPermutation(a: seq<Num>, b: seq<Num>)
    requires multiset(a) == multiset(b)
    ensures Worth(a) == Worth(b)
    decreases |a|
  {
    hide Val;
    if a == [] {
      assert |multiset(b)| == 0;
    } else {
      var last := a[|a| - 1];
      var i := Matched(a, b);
      WorthOfPermutation(a[..|a| - 1], b[..i] + b[i + 1..]);
      WorthWithout(b, i);
    }
  }

  /** Somewhere in `b` stands the last element of `a`, and the rests are permutations again. */
  lemma Matched(a: seq<Num>, b: seq<Num>) returns (i: nat)
    requires a != [] && multiset(a) == multiset(b)
    ensures i < |b| && b[i] == a[|a| - 1] && multiset(a[..|a| - 1]) == multiset(b[..i] + b[i + 1..])
  {
    var last := a[|a| - 1];
    assert last in multiset(b);
    i :| 0 <= i < |b| && b[i] == last;
    assert a == a[..|a| - 1] + [last];
    assert b == b[..i] + [last] + b[i + 1..];
    assert multiset(a[..|a| - 1]) == multiset(a) - multiset{last};
    assert multiset(b[..i] + b[i + 1..]) == multiset(b) - multiset{last};
  }

  lemma SumOreIsPermutationInvariant(a: seq<Num>, b: seq<Num>)
    requires multiset(a) == multiset(b)
    ensures SumOre(a) == SumOre(b)
  {
    hide Val, RoundOre;
    TotalIsWorth(a);
    TotalIsWorth(b);
    WorthOfPermutation(a, b);
    ValIsInjective(Total(a), Total(b));
  }

  ghost predicate WholeOre(n: Num) {
    exists ore: int :: IsOre(n, ore)
  }

  ghost predicate AllOre(values: seq<Num>) {
    forall i :: 0 <= i < |values| ==> WholeOre(values[i])
  }

  lemma {:induction false} OreAddsUp(values: seq<Num>) returns (ore: int)
    requires AllOre(values)
    ensures Worth(values) * 100.0 == ore as real
  {
    if values == [] {
      ore := 0;
    } else {
      var last := values[|values| - 1];
      var front := OreAddsUp(values[..|values| - 1]);
      assert WholeOre(last);
      var m: int :| IsOre(last, m);
      ore := front + m;
    }
  }

  /** On whole öre the sum is exact. */
  lemma SumOreIsExactOnOre(values: seq<Num>)
    requires AllOre(values)
    ensures SumOre(values) == Total(values) && Val(SumOre(values)) == Worth(values)
  {
    hide Val, RoundOre;
    var ore := OreAddsUp(values);
    TotalIsWorth(values);
    OreStays(Total(values), ore);
  }

  function Rounded(values: seq<Num>): (rounded: seq<Num>)
    requires forall v :: v in values ==> v.Canonical()
  {
    if values == [] then [] else Rounded(values[..|values| - 1]) + [RoundOre(values[|values| - 1])]
  }

  lemma {:induction false} RoundedDrift(values: seq<Num>)
    requires forall v :: v in values ==> v.Canonical()
    ensures -0.005 * |values| as real <= Worth(values) - Worth(Rounded(values)) <= 0.005 * |values| as real
  {
    hide Val, RoundOre;
    if values != [] {
      var front, last := values[..|values| - 1], values[|values| - 1];
      RoundedDrift(front);
      var ore := RoundOreIsNearest(last);
      assert Rounded(values)[..|Rounded(values)| - 1] == Rounded(front);
    }
  }

  /** One rounding, of the exact sum: a whole number of öre within half an öre of it, an exact half upward. */
  lemma SumOreIsNearest(values: seq<Num>) returns (ore: int)
    ensures Val(SumOre(values)) * 100.0 == ore as real
    ensures ore as real - 0.5 <= Worth(values) * 100.0 < ore as real + 0.5
  {
    hide Val, RoundOre;
    TotalIsWorth(values);
    ore := RoundOreIsNearest(Total(values));
  }

  /** One rounding of the total against one per addend: at most half an öre each, and half for the total. */
  lemma SumOreAgainstRoundedAddends(values: seq<Num>)
    requires forall v :: v in values ==> v.Canonical()
    ensures -0.005 * (|values| + 1) as real <= Val(SumOre(values)) - Worth(Rounded(values))
            <= 0.005 * (|values| + 1) as real
  {
    hide Val, RoundOre;
    RoundedDrift(values);
    TotalIsWorth(values);
    var ore := RoundOreIsNearest(Total(values));
  }
}
