/**
 The comparator behind the trial balance merge gate: rows of the old path and
 the new one, compared account by account and then by order.
 */
module ParityRows {
  import opened Prelude

  datatype Field = OpeningDebit | OpeningCredit | PeriodDebit | PeriodCredit | ClosingDebit | ClosingCredit

  /** Finite amounts, as the numbers they are. */
  datatype Row = Row(account: string, name: string, class_: int, amounts: map<Field, real>) {
    ghost predicate Whole() {
      forall f: Field :: f in amounts
    }
  }

  datatype Detail =
    | OnlyInRpc(account: string)
    | OnlyInLegacy(account: string)
    | Label(account: string)
    | Amount(account: string, field: Field)
    | RowOrder

  const AMOUNT_FIELDS := [OpeningDebit, OpeningCredit, PeriodDebit, PeriodCredit, ClosingDebit, ClosingCredit]

  lemma EveryFieldIsListed(f: Field)
    ensures f in AMOUNT_FIELDS
  {
    assert AMOUNT_FIELDS[0] == OpeningDebit && AMOUNT_FIELDS[1] == OpeningCredit && AMOUNT_FIELDS[2] == PeriodDebit;
    assert AMOUNT_FIELDS[3] == PeriodCredit && AMOUNT_FIELDS[4] == ClosingDebit && AMOUNT_FIELDS[5] == ClosingCredit;
  }

  ghost predicate AllWhole(rows: seq<Row>) {
    forall r :: r in rows ==> r.Whole()
  }

  /** A later row of the same account replaces an earlier one. */
  function ByAccount(rows: seq<Row>): (m: map<string, Row>)
    ensures forall account :: account in m ==> m[account] in rows && m[account].account == account
    ensures forall r :: r in rows ==> r.account in m
  {
    if rows == [] then map[]
    else
      var last := rows[|rows| - 1];
      ByAccount(rows[..|rows| - 1])[last.account := last]
  }

  function Accounts(rows: seq<Row>): seq<string> {
    seq(|rows|, i requires 0 <= i < |rows| => rows[i].account)
  }

  /** `Array.prototype.join` with a comma. */
  function Join(names: seq<string>): string {
    if names == [] then ""
    else if |names| == 1 then names[0]
    else names[0] + "," + Join(names[1..])
  }

  ghost predicate CommaFree(names: seq<string>) {
    forall i :: 0 <= i < |names| ==> ',' !in names[i]
  }

  lemma {:induction false} JoinInjective(a: seq<string>, b: seq<string>)
    requires a != [] && b != [] && CommaFree(a) && CommaFree(b)
    requires Join(a) == Join(b)
    ensures a == b
  {
    FirstComma(a);
    FirstComma(b);
    if |a| > 1 && |b| > 1 {
      assert a[0] == Join(a)[..|a[0]|] == b[0];
      assert Join(a[1..]) == Join(a)[|a[0]| + 1..] == Join(b[1..]);
      JoinInjective(a[1..], b[1..]);
      assert a == [a[0]] + a[1..] && b == [b[0]] + b[1..];
    }
  }

  /** The first comma of the joined text ends the first name. */
  lemma FirstComma(names: seq<string>)
    requires names != [] && CommaFree(names)
    ensures |names| == 1 ==> ',' !in Join(names)
    ensures |names| > 1 ==> |names[0]| < |Join(names)| && Join(names)[|names[0]|] == ','
                            && ',' !in Join(names)[..|names[0]|]
  {
    if |names| > 1 {
      assert Join(names)[..|names[0]|] == names[0];
    }
  }

  predicate SameLabel(l: Row, r: Row) {
    l.name == r.name && l.class_ == r.class_
  }

  /** What one account contributes. */
  ghost predicate Reported(a: map<string, Row>, b: map<string, Row>, d: Detail) {
    match d
    case OnlyInRpc(account) => account in b && account !in a
    case OnlyInLegacy(account) => account in a && account !in b
    case Label(account) =>
      && account in a && account in b
      && (a[account].name != b[account].name || a[account].class_ != b[account].class_)
    case Amount(account, f) =>
      && account in a && account in b
      && f in a[account].amounts && f in b[account].amounts && a[account].amounts[f] != b[account].amounts[f]
    case RowOrder => false
  }

  method DiffAccount(a: map<string, Row>, b: map<string, Row>, account: string) returns (out: seq<Detail>)
    requires account in a || account in b
    requires forall k :: k in a ==> a[k].Whole()
    requires forall k :: k in b ==> b[k].Whole()
    ensures forall d :: d in out <==> Reported(a, b, d) && d != RowOrder && d.account == account
    ensures Distinct(out)
  {
    out := [];
    if account !in a {
      return [OnlyInRpc(account)];
    }
    if account !in b {
      return [OnlyInLegacy(account)];
    }
    var l, r := a[account], b[account];
    if !SameLabel(l, r) {
      out := [Label(account)];
    }
    for i := 0 to |AMOUNT_FIELDS|
      invariant forall d :: d in out <==>
                  || (d == Label(account) && !SameLabel(l, r))
                  || (d.Amount? && d.account == account && d.field in AMOUNT_FIELDS[..i]
                      && l.amounts[d.field] != r.amounts[d.field])
      invariant Distinct(out)
    {
      var f := AMOUNT_FIELDS[i];
      assert AMOUNT_FIELDS[..i + 1] == AMOUNT_FIELDS[..i] + [f];
      if l.amounts[f] != r.amounts[f] {
        out := out + [Amount(account, f)];
      }
    }
    assert AMOUNT_FIELDS[..|AMOUNT_FIELDS|] == AMOUNT_FIELDS;
    forall f: Field ensures f in AMOUNT_FIELDS { EveryFieldIsListed(f); }
  }

  /**
   Every difference is reported once and nothing else; the order is only
   looked at when nothing else differs.
   */
  method DiffRows(legacy: seq<Row>, rpc: seq<Row>) returns (out: seq<Detail>)
    requires AllWhole(legacy) && AllWhole(rpc)
    ensures forall d :: d in out <==>
              || Reported(ByAccount(legacy), ByAccount(rpc), d)
              || (d == RowOrder && ByAccount(legacy) == ByAccount(rpc) && Join(Accounts(legacy)) != Join(Accounts(rpc)))
    ensures out == [] <==> ByAccount(legacy) == ByAccount(rpc) && Join(Accounts(legacy)) == Join(Accounts(rpc))
    ensures Distinct(out)
  {
    var a, b := ByAccount(legacy), ByAccount(rpc);
    out := [];
    var pending := a.Keys + b.Keys;
    while pending != {}
      invariant pending <= a.Keys + b.Keys
      invariant forall d :: d in out <==> Reported(a, b, d) && d != RowOrder && d.account !in pending
      invariant Distinct(out)
    {
      var account :| account in pending;
      var more := DiffAccount(a, b, account);
      DistinctTogether(out, more);
      out, pending := out + more, pending - {account};
    }
    NothingReportedMeansEqual(a, b, out);
    if out == [] && Join(Accounts(legacy)) != Join(Accounts(rpc)) {
      out := [RowOrder];
    }
  }

  lemma DistinctTogether<T>(s: seq<T>, t: seq<T>)
    requires Distinct(s) && Distinct(t) && forall x :: x in s ==> x !in t
    ensures Distinct(s + t)
  {
    forall i, j | 0 <= i < j < |s + t| ensures (s + t)[i] != (s + t)[j] {
      assert i < |s| ==> (s + t)[i] in s;
      assert j >= |s| ==> (s + t)[j] in t;
    }
  }

  lemma NothingReportedMeansEqual(a: map<string, Row>, b: map<string, Row>, out: seq<Detail>)
    requires forall k :: k in a ==> a[k].Whole() && a[k].account == k
    requires forall k :: k in b ==> b[k].Whole() && b[k].account == k
    requires forall d :: d in out <==> Reported(a, b, d)
    ensures out == [] <==> a == b
  {
    if out == [] {
      forall k ensures k in a <==> k in b {
        assert !Reported(a, b, OnlyInRpc(k)) && !Reported(a, b, OnlyInLegacy(k));
      }
      forall k | k in a ensures a[k] == b[k] {
        assert !Reported(a, b, Label(k));
        forall f: Field ensures a[k].amounts[f] == b[k].amounts[f] { assert !Reported(a, b, Amount(k, f)); }
        assert a[k].amounts == b[k].amounts;
      }
    } else {
      assert Reported(a, b, out[0]);
    }
  }

  ghost predicate Unique(rows: seq<Row>) {
    Distinct(Accounts(rows))
  }

  /** Of the rows of an account the last one is compared. */
  lemma {:induction false} LastRowIsFound(rows: seq<Row>, i: nat)
    requires i < |rows| && forall k :: i < k < |rows| ==> rows[k].account != rows[i].account
    ensures rows[i].account in ByAccount(rows) && ByAccount(rows)[rows[i].account] == rows[i]
  {
    if i < |rows| - 1 {
      LastRowIsFound(rows[..|rows| - 1], i);
    }
  }

  lemma UniqueIsLast(rows: seq<Row>, i: nat)
    requires Unique(rows) && i < |rows|
    ensures ByAccount(rows)[rows[i].account] == rows[i]
  {
    forall k | i < k < |rows| ensures rows[k].account != rows[i].account {
      assert Accounts(rows)[k] != Accounts(rows)[i];
    }
    LastRowIsFound(rows, i);
  }

  /** The merge gate: an empty diff is equality of the two row sequences, order included. */
  lemma EmptyDiffMeansEqual(legacy: seq<Row>, rpc: seq<Row>)
    requires Unique(legacy) && Unique(rpc)
    requires CommaFree(Accounts(legacy)) && CommaFree(Accounts(rpc))
    ensures ByAccount(legacy) == ByAccount(rpc) && Join(Accounts(legacy)) == Join(Accounts(rpc)) <==> legacy == rpc
  {
    if ByAccount(legacy) == ByAccount(rpc) && Join(Accounts(legacy)) == Join(Accounts(rpc)) {
      assert legacy != [] ==> legacy[0].account in ByAccount(rpc);
      assert rpc != [] ==> rpc[0].account in ByAccount(legacy);
      if legacy != [] && rpc != [] {
        JoinInjective(Accounts(legacy), Accounts(rpc));
        assert |Accounts(legacy)| == |Accounts(rpc)|;
        forall i | 0 <= i < |legacy| ensures legacy[i] == rpc[i] {
          assert Accounts(legacy)[i] == Accounts(rpc)[i];
          UniqueIsLast(legacy, i);
          UniqueIsLast(rpc, i);
        }
      }
    }
  }

  /** Uniqueness is needed: a repeated account hides a row. */
  lemma RepeatedAccountHidesARow(amounts: map<Field, real>)
    ensures var shown, hidden := Row("1930", "Bank", 1, amounts), Row("1930", "Kassa", 1, amounts);
            && ByAccount([shown, shown]) == ByAccount([hidden, shown])
            && Accounts([shown, shown]) == Accounts([hidden, shown])
            && [shown, shown] != [hidden, shown]
  {
    var shown, hidden := Row("1930", "Bank", 1, amounts), Row("1930", "Kassa", 1, amounts);
    LastOfTwo(shown, shown);
    LastOfTwo(hidden, shown);
    assert shown.name[0] != hidden.name[0];
    assert [shown, shown][0] != [hidden, shown][0];
  }

  /** So are comma-free accounts: otherwise the joined text does not fix the order. */
  lemma CommaHidesTheOrder(amounts: map<Field, real>)
    ensures var one, two := Row("1", "", 1, amounts), Row("1,1", "", 1, amounts);
            && Unique([one, two]) && Unique([two, one])
            && ByAccount([one, two]) == ByAccount([two, one])
            && Join(Accounts([one, two])) == Join(Accounts([two, one]))
            && [one, two] != [two, one]
  {
    var one, two := Row("1", "", 1, amounts), Row("1,1", "", 1, amounts);
    LastOfTwo(one, two);
    LastOfTwo(two, one);
    assert |one.account| != |two.account|;
    JoinOfTwo(one.account, two.account);
    JoinOfTwo(two.account, one.account);
    assert Accounts([one, two]) == [one.account, two.account] && Accounts([two, one]) == [two.account, one.account];
    assert one.account + "," + two.account == two.account + "," + one.account;
    assert [one, two][0] != [two, one][0];
  }

  lemma JoinOfTwo(a: string, b: string)
    ensures Join([a, b]) == a + "," + b
  {
    assert [a, b][1..] == [b];
  }

  lemma LastOfTwo(a: Row, b: Row)
    ensures ByAccount([a, b]) == map[a.account := a][b.account := b]
  {
    assert [a, b][..1] == [a] && [a][..0] == [];
    assert ByAccount([a]) == map[a.account := a];
  }
}
