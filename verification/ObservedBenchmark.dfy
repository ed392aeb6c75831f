/** The synthetic supplier names and vouchers of the observed-load fixture. */
module ObservedBenchmark {
  import opened Numerals

  function Letter(d: nat): char
    requires d < 26
  {
    'a' + d as char
  }

  ghost predicate IsName(s: string) {
    s != "" && forall i :: 0 <= i < |s| ==> 'a' <= s[i] <= 'z'
  }

  /** a, b, …, z, aa, ab, … : base 26 without a zero. */
  ghost function Suffix(n: nat): (s: string)
    ensures IsName(s)
  {
    if n < 26 then [Letter(n)] else Suffix(n / 26 - 1) + [Letter(n % 26)]
  }

  /** The position of a name in that list. */
  ghost function Index(s: string): nat
    requires IsName(s)
  {
    var last := (s[|s| - 1] - 'a') as nat;
    if |s| == 1 then last else 26 * (Index(s[..|s| - 1]) + 1) + last
  }

  method SupplierSuffix(i: nat) returns (suffix: string)
    ensures suffix == Suffix(i)
  {
    var n: int := i;
    suffix := [Letter(n % 26)];
    n := n / 26 - 1;
    while n >= 0
      invariant n >= -1
      invariant Suffix(i) == if n >= 0 then Suffix(n) + suffix else suffix
      decreases n + 1
    {
      assert n >= 26 ==> Suffix(n) + suffix == Suffix(n / 26 - 1) + ([Letter(n % 26)] + suffix);
      suffix := [Letter(n % 26)] + suffix;
      n := n / 26 - 1;
    }
  }

  lemma {:induction false} IndexOfSuffix(n: nat)
    ensures Index(Suffix(n)) == n
  {
    if n >= 26 {
      IndexOfSuffix(n / 26 - 1);
      assert Suffix(n)[..|Suffix(n)| - 1] == Suffix(n / 26 - 1);
    }
  }

  lemma {:induction false} SuffixOfIndex(s: string)
    requires IsName(s)
    ensures Suffix(Index(s)) == s
  {
    if |s| > 1 {
      var front, last := s[..|s| - 1], (s[|s| - 1] - 'a') as nat;
      SuffixOfIndex(front);
      assert Index(s) / 26 - 1 == Index(front) && Index(s) % 26 == last;
      assert s == front + [s[|s| - 1]];
    } else {
      assert s == [s[0]];
    }
  }

  /** Shorter first, then alphabetical. */
  ghost predicate Before(a: string, b: string) {
    |a| < |b| || (|a| == |b| && LexLess(a, b))
  }

  lemma {:induction false} LexLessLast(a: string, b: string, x: char, y: char)
    requires |a| == |b|
    ensures LexLess(a + [x], b + [y]) <==> LexLess(a, b) || (a == b && x < y)
  {
    if a != "" {
      assert (a + [x])[1..] == a[1..] + [x] && (b + [y])[1..] == b[1..] + [y];
      assert a == [a[0]] + a[1..] && b == [b[0]] + b[1..];
      LexLessLast(a[1..], b[1..], x, y);
    } else {
      assert [x][1..] == "" && [y][1..] == "";
      assert "" + [x] == [x] && "" + [y] == [y];
    }
  }

  /** The names come in that order: a bijection from the naturals that keeps order. */
  lemma {:induction false} SuffixIsIncreasing(m: nat, n: nat)
    requires m < n
    ensures Before(Suffix(m), Suffix(n))
    decreases n
  {
    if n >= 26 {
      var q := n / 26 - 1;
      if m < 26 {
        assert |Suffix(q)| >= 1;
      } else {
        var p := m / 26 - 1;
        if p < q {
          SuffixIsIncreasing(p, q);
        } else {
          assert p == q && m % 26 < n % 26;
        }
        if |Suffix(p)| == |Suffix(q)| {
          LexLessLast(Suffix(p), Suffix(q), Letter(m % 26), Letter(n % 26));
        }
      }
    } else {
      LexLessLast("", "", Letter(m), Letter(n));
      assert "" + [Letter(m)] == [Letter(m)] && "" + [Letter(n)] == [Letter(n)];
    }
  }

  // ----- vouchers -----

  /** Amounts in hundredths. */
  datatype Trans = Trans(account: string, amount: int)

  ghost function Balance(lines: seq<Trans>): int {
    if lines == [] then 0 else lines[0].amount + Balance(lines[1..])
  }

  /** The three shapes of voucher. */
  function VoucherLines(i: nat): seq<Trans> {
    if i % 10 == 0 then [Trans("1930", 10000), Trans("2440", -10000)]
    else if i % 10 == 1 then [Trans("1930", 15000), Trans("3011", -15000)]
    else [Trans(if i % 3 != 0 then "4000" else "4010", 10025), Trans("6542", 1975), Trans("2641", 3000),
        Trans("2440", -15000)]
  }

  lemma {:induction false} BalanceOf(first: Trans, rest: seq<Trans>)
    ensures Balance([first] + rest) == first.amount + Balance(rest)
  {
    assert ([first] + rest)[1..] == rest;
  }

  /** Every voucher sums to zero. */
  lemma EveryVoucherBalances(i: nat)
    ensures Balance(VoucherLines(i)) == 0
  {
    var lines := VoucherLines(i);
    BalanceOf(lines[|lines| - 1], []);
    BalanceOf(lines[|lines| - 2], [lines[|lines| - 1]]);
    if |lines| == 4 {
      BalanceOf(lines[1], [lines[2], lines[3]]);
      BalanceOf(lines[0], [lines[1], lines[2], lines[3]]);
      assert [lines[1]] + [lines[2], lines[3]] == [lines[1], lines[2], lines[3]];
      assert lines == [lines[0]] + [lines[1], lines[2], lines[3]];
      assert [lines[2]] + [lines[3]] == [lines[2], lines[3]];
    } else {
      assert lines == [lines[0]] + [lines[1]];
    }
    assert [lines[|lines| - 1]] + [] == [lines[|lines| - 1]];
  }
}
