/** Dates as a `date` column returns them, `YYYY-MM-DD`, and their order. */
module IsoDates {
  import opened Numerals

  predicate IsIsoDate(s: string) {
    && |s| == 10 && s[4] == '-' && s[7] == '-'
    && IsNumeral(s[..4]) && IsNumeral(s[5..7]) && IsNumeral(s[8..])
  }

  type IsoDate = s: string | IsIsoDate(s) witness "2024-12-31"

  /** `a` is `b` or an earlier day: by year, then month, then day. */
  ghost predicate NotAfter(a: IsoDate, b: IsoDate) {
    var (yearA, monthA, dayA) := (Value(a[..4]), Value(a[5..7]), Value(a[8..]));
    var (yearB, monthB, dayB) := (Value(b[..4]), Value(b[5..7]), Value(b[8..]));
    yearA < yearB || (yearA == yearB && (monthA < monthB || (monthA == monthB && dayA <= dayB)))
  }

  /** Dates are compared as strings. */
  predicate DateAtMost(a: string, b: string) {
    a == b || LexLess(a, b)
  }

  /** Strings that start alike are ordered by the rest. */
  lemma {:induction false} SamePrefix(p: string, a: string, b: string)
    ensures LexLess(p + a, p + b) <==> LexLess(a, b)
  {
    if p == "" {
      assert p + a == a && p + b == b;
    } else {
      assert (p + a)[1..] == p[1..] + a && (p + b)[1..] == p[1..] + b;
      SamePrefix(p[1..], a, b);
    }
  }

  /** A first part of one length decides, and if it is the same the rest does. */
  lemma PartDecides(a: string, b: string, x: string, y: string)
    requires |a| == |b| && IsNumeral(a) && IsNumeral(b)
    ensures LexLess(a + x, b + y) <==> Value(a) < Value(b) || (Value(a) == Value(b) && LexLess(x, y))
    ensures a + x == b + y <==> Value(a) == Value(b) && x == y
  {
    LexLessIsLess(a, b);
    if a == b {
      SamePrefix(a, x, y);
      assert (a + x)[|a|..] == x && (b + y)[|b|..] == y;
    } else {
      LexLessExtends(a, b, x, y);
      assert (a + x)[..|a|] == a && (b + y)[..|b|] == b;
    }
  }

  lemma DashDecidesNothing(x: string, y: string)
    ensures LexLess("-" + x, "-" + y) <==> LexLess(x, y)
    ensures "-" + x == "-" + y <==> x == y
  {
    SamePrefix("-", x, y);
    assert ("-" + x)[1..] == x && ("-" + y)[1..] == y;
  }

  /** Comparing dates as strings compares the days. */
  lemma StringOrderIsDateOrder(a: IsoDate, b: IsoDate)
    ensures DateAtMost(a, b) <==> NotAfter(a, b)
  {
    assert a == a[..4] + ("-" + (a[5..7] + ("-" + a[8..])));
    assert b == b[..4] + ("-" + (b[5..7] + ("-" + b[8..])));
    hide LexLess, Value;
    PartDecides(a[..4], b[..4], "-" + (a[5..7] + ("-" + a[8..])), "-" + (b[5..7] + ("-" + b[8..])));
    DashDecidesNothing(a[5..7] + ("-" + a[8..]), b[5..7] + ("-" + b[8..]));
    PartDecides(a[5..7], b[5..7], "-" + a[8..], "-" + b[8..]);
    DashDecidesNothing(a[8..], b[8..]);
    PartDecides(a[8..], b[8..], "", "");
    assert a[8..] + "" == a[8..] && b[8..] + "" == b[8..];
    NothingIsLess();
  }

  lemma NothingIsLess()
    ensures !LexLess("", "")
  {
  }
}
