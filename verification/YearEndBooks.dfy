/**
 The books a year-end undo works on: the closed period, the next period and
 the append-only journal. `Undone` is the state an undo restores, built from
 the steps of the script; the lemmas show that a run killed between any two
 steps is still heading there.
 */
module YearEndBooks {
  import opened Prelude

  datatype Status = DraftEntry | Posted | Reversed | Cancelled
  datatype Source = YearEnd | OpeningBalance | ResultAppropriation | Storno | OtherSource
  datatype Which = ClosedPeriod | NextYear | ElseWhen

  /** Amounts are whole öre. */
  datatype Line = Line(account: string, debit: int, credit: int)

  datatype Entry = Entry(period: Which, source: Source, status: Status, lines: seq<Line>, reverses: Option<nat>)

  datatype Period = Period(isClosed: bool, locked: bool, closing: Option<nat>)

  datatype Next = Next(isClosed: bool, locked: bool, closing: Option<nat>,
                       ib: Option<nat>, ibSet: bool, continuity: Option<bool>)

  /** An entry's id is its position in the journal. */
  datatype Books = Books(period: Period, next: Option<Next>, journal: seq<Entry>)

  // ----- storno -----

  /** The net of a line goes to the opposite side, as a non-negative amount. */
  function CreditNatural(account: string, net: int): Line {
    if net < 0 then Line(account, -net, 0) else Line(account, 0, net)
  }

  function ReversedLine(line: Line): Line {
    CreditNatural(line.account, line.debit - line.credit)
  }

  function ReversedLines(lines: seq<Line>): (reversed: seq<Line>)
    ensures |reversed| == |lines|
  {
    if lines == [] then [] else ReversedLines(lines[..|lines| - 1]) + [ReversedLine(lines[|lines| - 1])]
  }

  ghost function Net(lines: seq<Line>, account: string): int {
    if lines == [] then 0
    else
      var last := lines[|lines| - 1];
      Net(lines[..|lines| - 1], account) + (if last.account == account then last.debit - last.credit else 0)
  }

  /** An entry and its storno cancel on every account, also for lines booked with a negative side. */
  lemma {:induction false} StornoCancels(lines: seq<Line>, account: string)
    ensures Net(lines, account) + Net(ReversedLines(lines), account) == 0
    ensures forall i :: 0 <= i < |lines| ==> ReversedLines(lines)[i].debit >= 0 && ReversedLines(lines)[i].credit >= 0
  {
    if lines != [] {
      var front := lines[..|lines| - 1];
      StornoCancels(front, account);
      assert ReversedLines(lines)[..|lines| - 1] == ReversedLines(front);
    }
  }

  ghost predicate CanReverse(b: Books, i: nat) {
    i < |b.journal| && b.journal[i].status == Posted && b.journal[i].source != Storno
  }

  function StornoOf(i: nat, e: Entry): Entry {
    Entry(e.period, Storno, Posted, ReversedLines(e.lines), Some(i))
  }

  /** `reverseEntry`: post the mirrored entry, mark the entry reversed, clear the link that names it. */
  function Reverse(b: Books, i: nat): Books
    requires CanReverse(b, i)
  {
    var e := b.journal[i];
    var next := if e.source == OpeningBalance && b.next.Some? && b.next.value.ib == Some(i)
                then Some(b.next.value.(ib := None, ibSet := false)) else b.next;
    Books(b.period, next, b.journal[i := e.(status := Reversed)] + [StornoOf(i, e)])
  }

  function Stornos(journal: seq<Entry>, i: nat): set<nat> {
    set j | 0 <= j < |journal| && journal[j].source == Storno && journal[j].status == Posted
        && journal[j].reverses == Some(i)
  }

  /** A reversed entry has exactly one posted storno; a posted one has none. */
  ghost predicate ChainOk(journal: seq<Entry>, i: nat)
    requires i < |journal|
  {
    && (journal[i].status == Posted ==> Stornos(journal, i) == {})
    && (journal[i].status == Reversed ==> exists j :: Stornos(journal, i) == {j} && Mirrors(journal, i, j))
  }

  ghost predicate Mirrors(journal: seq<Entry>, i: nat, j: nat) {
    && i < |journal| && j < |journal|
    && journal[j].lines == ReversedLines(journal[i].lines)
    && journal[j].period == journal[i].period
  }

  /** The stornos chain up: every original entry has its storno, and stornos are not reversed. */
  ghost predicate Chained(journal: seq<Entry>) {
    && (forall i :: 0 <= i < |journal| && journal[i].source != Storno ==> ChainOk(journal, i))
    && (forall j :: 0 <= j < |journal| && journal[j].reverses.Some? ==> journal[j].reverses.value < j)
  }

  /** The line takes back the other, on its account, as one non-negative amount. */
  ghost predicate TakesBack(line: Line, other: Line) {
    && line.account == other.account && line.debit >= 0 && line.credit >= 0 && (line.debit == 0 || line.credit == 0)
    && line.debit - line.credit == other.credit - other.debit
  }

  lemma {:induction false} LinesTakenBack(lines: seq<Line>)
    ensures |ReversedLines(lines)| == |lines|
    ensures forall k :: 0 <= k < |lines| ==> TakesBack(ReversedLines(lines)[k], lines[k])
  {
    if lines != [] {
      LinesTakenBack(lines[..|lines| - 1]);
    }
  }

  /**
   One reversal, entry by entry: the entry is marked, its storno comes last,
   and the opening balance link goes with the entry it names and no other.
   */
  lemma ReverseExactly(b: Books, i: nat)
    requires CanReverse(b, i)
    ensures var (b', e, n) := (Reverse(b, i), b.journal[i], |b.journal|);
            && |b'.journal| == n + 1 && b'.journal[i] == e.(status := Reversed) && b'.period == b.period
            && (forall k :: 0 <= k < n && k != i ==> b'.journal[k] == b.journal[k])
            && var storno := b'.journal[n];
            && storno.period == e.period && storno.source == Storno && storno.status == Posted
            && storno.reverses == Some(i) && |storno.lines| == |e.lines|
            && (forall k :: 0 <= k < |e.lines| ==> TakesBack(storno.lines[k], e.lines[k]))
            && (b.next.None? ==> b'.next.None?)
            && (b.next.Some? ==>
                  b'.next == Some(if e.source == OpeningBalance && b.next.value.ib == Some(i)
                                  then b.next.value.(ib := None, ibSet := false) else b.next.value))
  {
    LinesTakenBack(b.journal[i].lines);
  }

  lemma ReverseKeepsChain(b: Books, i: nat)
    requires CanReverse(b, i) && Chained(b.journal)
    ensures Chained(Reverse(b, i).journal)
    ensures Stornos(Reverse(b, i).journal, i) == {|b.journal|}
  {
    var journal, journal' := b.journal, Reverse(b, i).journal;
    forall k | 0 <= k < |journal|
      ensures Stornos(journal', k) == if k == i then {|journal|} else Stornos(journal, k)
    {
      assert ChainOk(journal, i);
      forall j | j in Stornos(journal', k) && j < |journal| ensures j in Stornos(journal, k) {}
      forall j | j in Stornos(journal, k) ensures j in Stornos(journal', k) {}
    }
    assert Mirrors(journal', i, |journal|);
    forall k | 0 <= k < |journal'| && journal'[k].source != Storno
      ensures ChainOk(journal', k)
    {
      assert ChainOk(journal, k);
      if k != i && journal[k].status == Reversed {
        var j :| Stornos(journal, k) == {j} && Mirrors(journal, k, j);
        assert j in Stornos(journal, k);
        assert Mirrors(journal', k, j);
      }
    }
  }

  // ----- what the ledger adds up to -----

  /** Posted and reversed entries both stand in the ledger; drafts and cancelled ones do not. */
  ghost function LedgerNet(journal: seq<Entry>, account: string): int {
    if journal == [] then 0
    else
      var last := journal[|journal| - 1];
      LedgerNet(journal[..|journal| - 1], account)
      + (if last.status == Posted || last.status == Reversed then Net(last.lines, account) else 0)
  }

  lemma {:induction false} MarkingKeepsNet(journal: seq<Entry>, i: nat, account: string)
    requires i < |journal| && journal[i].status == Posted
    ensures LedgerNet(journal[i := journal[i].(status := Reversed)], account) == LedgerNet(journal, account)
  {
    var marked := journal[i := journal[i].(status := Reversed)];
    var front := journal[..|journal| - 1];
    if i < |journal| - 1 {
      MarkingKeepsNet(front, i, account);
      assert marked[..|journal| - 1] == front[i := front[i].(status := Reversed)];
    } else {
      assert marked[..|journal| - 1] == front;
    }
  }

  /** A reversal takes exactly the entry's own amounts off every account. */
  lemma ReverseTakesOffTheNet(b: Books, i: nat, account: string)
    requires CanReverse(b, i)
    ensures LedgerNet(Reverse(b, i).journal, account)
            == LedgerNet(b.journal, account) - Net(b.journal[i].lines, account)
  {
    var e := b.journal[i];
    var marked := b.journal[i := e.(status := Reversed)];
    MarkingKeepsNet(b.journal, i, account);
    StornoCancels(e.lines, account);
    assert (marked + [StornoOf(i, e)])[..|marked|] == marked;
  }

  // ----- the entries to reverse -----

  ghost predicate PostedInNext(e: Entry, source: Source) {
    e.period == NextYear && e.status == Posted && e.source == source
  }

  /** The scan keeps the last match of the first `n` entries. */
  ghost function LastAppropriation(journal: seq<Entry>, n: nat): (i: Option<nat>)
    requires n <= |journal|
    ensures i.Some? ==> i.value < n && PostedInNext(journal[i.value], ResultAppropriation)
    ensures i.None? ==> forall k :: 0 <= k < n ==> !PostedInNext(journal[k], ResultAppropriation)
  {
    if n == 0 then None
    else if PostedInNext(journal[n - 1], ResultAppropriation) then Some(n - 1)
    else LastAppropriation(journal, n - 1)
  }

  /** Matched by the period's own link when that is set, by source type otherwise. */
  ghost predicate IsOpeningBalance(journal: seq<Entry>, link: Option<nat>, i: nat)
    requires i < |journal|
  {
    PostedInNext(journal[i], OpeningBalance) && (link.None? || link == Some(i))
  }

  ghost function LastOpeningBalance(journal: seq<Entry>, link: Option<nat>, n: nat): (i: Option<nat>)
    requires n <= |journal|
    ensures i.Some? ==> i.value < n && IsOpeningBalance(journal, link, i.value)
    ensures i.None? ==> forall k :: 0 <= k < n ==> !IsOpeningBalance(journal, link, k)
  {
    if n == 0 then None
    else if IsOpeningBalance(journal, link, n - 1) then Some(n - 1)
    else LastOpeningBalance(journal, link, n - 1)
  }

  ghost function AppropriationEntry(b: Books): (i: Option<nat>)
    ensures i.Some? ==> CanReverse(b, i.value)
  {
    if b.next.None? then None else LastAppropriation(b.journal, |b.journal|)
  }

  ghost function OpeningEntry(b: Books): (i: Option<nat>)
    ensures i.Some? ==> CanReverse(b, i.value)
  {
    if b.next.None? then None else LastOpeningBalance(b.journal, b.next.value.ib, |b.journal|)
  }

  /** What the bookkeeping promises: one of each generated entry, and honest links. */
  ghost predicate WellKept(closing: nat, b: Books) {
    && closing < |b.journal|
    && b.journal[closing].period == ClosedPeriod && b.journal[closing].source == YearEnd
    && (b.journal[closing].status == Posted || b.journal[closing].status == Reversed)
    && AtMostOne(b.journal, ResultAppropriation) && AtMostOne(b.journal, OpeningBalance)
    && (b.next.Some? ==>
          && (b.next.value.ibSet ==> b.next.value.ib.Some?)
          && (b.next.value.ib.Some? ==>
                && b.next.value.ib.value < |b.journal|
                && var e := b.journal[b.next.value.ib.value];
                e.period == NextYear && e.status == Posted && e.source == OpeningBalance))
    && Chained(b.journal)
  }

  ghost predicate AtMostOne(journal: seq<Entry>, source: Source) {
    forall i, j :: 0 <= i < j < |journal| && journal[i].source == journal[j].source == source
                   && journal[i].period == journal[j].period == NextYear ==>
      journal[i].status != Posted || journal[j].status != Posted
  }

  // ----- the steps, in order -----

  ghost function AppropriationReversed(b: Books): Books {
    if AppropriationEntry(b).Some? then Reverse(b, AppropriationEntry(b).value) else b
  }

  ghost function OpeningReversed(b: Books): Books {
    if OpeningEntry(b).Some? then Reverse(b, OpeningEntry(b).value) else b
  }

  function ContinuityReset(b: Books): Books {
    if b.next.Some? then b.(next := Some(b.next.value.(continuity := None))) else b
  }

  function Reopened(b: Books): Books {
    b.(period := b.period.(isClosed := false, locked := false))
  }

  ghost function ClosingReversed(closing: nat, b: Books): Books {
    if CanReverse(b, closing) then Reverse(b, closing) else b
  }

  function Detached(b: Books): Books {
    b.(period := b.period.(closing := None))
  }

  /** The state just before the year was closed, every change a storno. */
  ghost function Undone(closing: nat, b: Books): Books {
    Detached(ClosingReversed(closing, Reopened(ContinuityReset(OpeningReversed(AppropriationReversed(b))))))
  }

  /** The script's own final check. */
  ghost predicate Verified(closing: nat, b: Books) {
    && closing < |b.journal| && b.journal[closing].status == Reversed
    && !b.period.isClosed && !b.period.locked && b.period.closing.None?
    && (b.next.Some? ==> b.next.value.ib.None? && !b.next.value.ibSet)
  }

  lemma ReverseAppropriation(closing: nat, b: Books)
    requires WellKept(closing, b)
    ensures var b' := AppropriationReversed(b);
            && WellKept(closing, b')
            && AppropriationEntry(b') == None
            && OpeningEntry(b') == OpeningEntry(b)
            && b'.journal[closing] == b.journal[closing] && b'.period == b.period && b'.next == b.next
  {
    if AppropriationEntry(b).Some? {
      var i := AppropriationEntry(b).value;
      var b' := Reverse(b, i);
      ReverseKeepsChain(b, i);
      assert forall k :: 0 <= k < |b.journal| && k != i ==> b'.journal[k] == b.journal[k];
      SameOpening(b, b');
    }
  }

  lemma {:induction false} SameLastOpening(journal: seq<Entry>, journal': seq<Entry>, link: Option<nat>, n: nat)
    requires n <= |journal| && n <= |journal'|
    requires forall k :: 0 <= k < n ==>
               (PostedInNext(journal'[k], OpeningBalance) <==> PostedInNext(journal[k], OpeningBalance))
    ensures LastOpeningBalance(journal', link, n) == LastOpeningBalance(journal, link, n)
  {
    if n > 0 {
      SameLastOpening(journal, journal', link, n - 1);
    }
  }

  lemma {:induction false} SameLastAppropriation(journal: seq<Entry>, journal': seq<Entry>, n: nat)
    requires n <= |journal| && n <= |journal'|
    requires forall k :: 0 <= k < n ==>
               (PostedInNext(journal'[k], ResultAppropriation) <==> PostedInNext(journal[k], ResultAppropriation))
    ensures LastAppropriation(journal', n) == LastAppropriation(journal, n)
  {
    if n > 0 {
      SameLastAppropriation(journal, journal', n - 1);
    }
  }

  /** The scan for the opening balance only looks at opening balance entries and the link. */
  lemma SameOpening(b: Books, b': Books)
    requires b'.next == b.next && |b'.journal| == |b.journal| + 1
    requires forall k :: 0 <= k < |b.journal| ==>
               (PostedInNext(b'.journal[k], OpeningBalance) <==> PostedInNext(b.journal[k], OpeningBalance))
    requires !PostedInNext(b'.journal[|b.journal|], OpeningBalance)
    ensures OpeningEntry(b') == OpeningEntry(b)
  {
    if b.next.Some? {
      SameLastOpening(b.journal, b'.journal, b.next.value.ib, |b.journal|);
    }
  }

  /** Taking back the appropriation leaves the scan for the opening balance alone, whatever the books. */
  lemma AppropriationLeavesOpening(b: Books)
    ensures OpeningEntry(AppropriationReversed(b)) == OpeningEntry(b)
  {
    if AppropriationEntry(b).Some? {
      SameOpening(b, AppropriationReversed(b));
    }
  }

  /** Nor does taking back the opening balance change the scan for the appropriation. */
  lemma OpeningLeavesAppropriation(b: Books)
    ensures AppropriationEntry(OpeningReversed(b)) == AppropriationEntry(b)
  {
    if OpeningEntry(b).Some? {
      SameLastAppropriation(b.journal, OpeningReversed(b).journal, |b.journal|);
    }
  }

  lemma ReverseOpening(closing: nat, b: Books)
    requires WellKept(closing, b)
    ensures var b' := OpeningReversed(b);
            && WellKept(closing, b')
            && AppropriationEntry(b') == AppropriationEntry(b) && OpeningEntry(b') == None
            && b'.journal[closing] == b.journal[closing] && b'.period == b.period
            && (b'.next.Some? <==> b.next.Some?)
            && (b'.next.Some? ==> b'.next.value.ib == None && !b'.next.value.ibSet
                                  && b'.next.value.continuity == b.next.value.continuity)
  {
    if b.next.Some? && b.next.value.ib.Some? {
      assert IsOpeningBalance(b.journal, b.next.value.ib, b.next.value.ib.value);
    }
    if OpeningEntry(b).Some? {
      var i := OpeningEntry(b).value;
      var b' := Reverse(b, i);
      ReverseKeepsChain(b, i);
      assert forall k :: 0 <= k < |b.journal| && k != i ==> b'.journal[k] == b.journal[k];
    }
    OpeningLeavesAppropriation(b);
  }

  lemma ReverseClosing(closing: nat, b: Books)
    requires WellKept(closing, b) && AppropriationEntry(b) == None && OpeningEntry(b) == None
    ensures var b' := ClosingReversed(closing, b);
            && WellKept(closing, b') && b'.journal[closing].status == Reversed
            && AppropriationEntry(b') == None && OpeningEntry(b') == None
            && b'.period == b.period && b'.next == b.next
  {
    if CanReverse(b, closing) {
      var b' := Reverse(b, closing);
      ReverseKeepsChain(b, closing);
      assert forall k :: 0 <= k < |b.journal| && k != closing ==> b'.journal[k] == b.journal[k];
      SameOpening(b, b');
    }
  }

  /** The plain field updates leave the journal and the scans alone. */
  lemma FieldSteps(closing: nat, b: Books)
    requires WellKept(closing, b)
    ensures WellKept(closing, ContinuityReset(b)) && WellKept(closing, Reopened(b)) && WellKept(closing, Detached(b))
    ensures AppropriationEntry(ContinuityReset(b)) == AppropriationEntry(Reopened(b)) == AppropriationEntry(Detached(b))
            == AppropriationEntry(b)
    ensures OpeningEntry(ContinuityReset(b)) == OpeningEntry(Reopened(b)) == OpeningEntry(Detached(b))
            == OpeningEntry(b)
  {
  }

  /** The undo meets its own final check, from any well-kept books. */
  lemma UndoneIsVerified(closing: nat, b: Books)
    requires WellKept(closing, b)
    ensures Verified(closing, Undone(closing, b)) && WellKept(closing, Undone(closing, b))
    ensures AppropriationEntry(Undone(closing, b)) == None && OpeningEntry(Undone(closing, b)) == None
  {
    var b1 := AppropriationReversed(b);
    ReverseAppropriation(closing, b);
    var b2 := OpeningReversed(b1);
    ReverseOpening(closing, b1);
    FieldSteps(closing, b2);
    var b3 := ContinuityReset(b2);
    FieldSteps(closing, b3);
    var b4 := Reopened(b3);
    ReverseClosing(closing, b4);
    FieldSteps(closing, ClosingReversed(closing, b4));
  }

  /** The entry is one the undo takes back: the closing entry, or a generated one of the next year. */
  ghost predicate TakenBack(closing: nat, b: Books, i: nat)
    requires i < |b.journal|
  {
    && b.journal[i].status == Posted
    && (i == closing
        || (b.next.Some? && b.journal[i].period == NextYear
            && (b.journal[i].source == ResultAppropriation || b.journal[i].source == OpeningBalance)))
  }

  /** From here to there exactly these entries were reversed, each by a storno behind the others. */
  ghost predicate OnlyReversed(journal: seq<Entry>, journal': seq<Entry>, taken: set<nat>) {
    && |journal| <= |journal'|
    && (forall i :: 0 <= i < |journal| ==>
          journal'[i] == if i in taken then journal[i].(status := Reversed) else journal[i])
    && (forall j :: |journal| <= j < |journal'| ==>
          && journal'[j].source == Storno && journal'[j].status == Posted
          && journal'[j].reverses.Some? && journal'[j].reverses.value in taken)
  }

  lemma OneMoreReversed(b: Books, b1: Books, i: nat, taken: set<nat>)
    requires OnlyReversed(b.journal, b1.journal, taken) && CanReverse(b1, i) && i < |b.journal|
    ensures OnlyReversed(b.journal, Reverse(b1, i).journal, taken + {i})
  {
  }

  /**
   The undo, entry by entry: the closing entry and the generated entries of
   the next year, as far as they were posted, are reversed and every other
   entry is as it was; what is new are their stornos. The closed period is
   open and without a closing entry, the next one without an opening balance
   and not checked for continuity, and otherwise as it was.
   */
  lemma UndoneExactly(closing: nat, b: Books)
    requires WellKept(closing, b)
    ensures var u := Undone(closing, b);
            && OnlyReversed(b.journal, u.journal, set i: nat | i < |b.journal| && TakenBack(closing, b, i))
            && u.period == Period(false, false, None)
            && (u.next.Some? <==> b.next.Some?)
            && (b.next.Some? ==> u.next == Some(b.next.value.(ib := None, ibSet := false, continuity := None)))
  {
    hide Undone, WellKept, OnlyReversed;
    UndoneJournal(closing, b);
    UndoneFields(closing, b);
    ThreeAreTakenBack(closing, b);
  }

  lemma ThreeAreTakenBack(closing: nat, b: Books)
    requires WellKept(closing, b)
    ensures Three(closing, b) == set i: nat | i < |b.journal| && TakenBack(closing, b, i)
  {
    TakenBackAre(closing, b);
    hide WellKept, TakenBack, AppropriationEntry, OpeningEntry;
  }

  ghost function Maybe(i: Option<nat>): set<nat> {
    if i.Some? then {i.value} else {}
  }

  /** The entries the three stages reverse. */
  ghost function Three(closing: nat, b: Books): set<nat> {
    Maybe(AppropriationEntry(b)) + Maybe(OpeningEntry(b)) + (if CanReverse(b, closing) then {closing} else {})
  }

  lemma UndoneJournal(closing: nat, b: Books)
    requires WellKept(closing, b)
    ensures OnlyReversed(b.journal, Undone(closing, b).journal, Three(closing, b))
  {
    hide OnlyReversed, AtMostOne, Chained, AppropriationEntry, OpeningEntry, Reverse;
    NothingReversed(b.journal);
    var b1 := AppropriationReversed(b);
    var b2 := OpeningReversed(b1);
    var b4 := Reopened(ContinuityReset(b2));
    ReverseAppropriation(closing, b);
    ReverseOpening(closing, b1);
    var first := {} + Maybe(AppropriationEntry(b));
    StageReverses(b, b, AppropriationEntry(b), {});
    StageReverses(b, b1, OpeningEntry(b), first);
    StageReverses(b, b4, if CanReverse(b4, closing) then Some(closing) else None, first + Maybe(OpeningEntry(b)));
    assert Three(closing, b)
        == first + Maybe(OpeningEntry(b)) + Maybe(if CanReverse(b4, closing) then Some(closing) else None);
  }

  lemma NothingReversed(journal: seq<Entry>)
    ensures OnlyReversed(journal, journal, {})
  {
  }

  lemma StageReverses(b: Books, b1: Books, i: Option<nat>, taken: set<nat>)
    requires OnlyReversed(b.journal, b1.journal, taken)
    requires i.Some? ==> i.value < |b.journal| && CanReverse(b1, i.value)
    ensures OnlyReversed(b.journal, (if i.Some? then Reverse(b1, i.value) else b1).journal, taken + Maybe(i))
  {
    if i.Some? {
      OneMoreReversed(b, b1, i.value, taken);
    } else {
      assert taken + Maybe(i) == taken;
    }
  }

  lemma UndoneFields(closing: nat, b: Books)
    requires WellKept(closing, b)
    ensures var u := Undone(closing, b);
            && u.period == Period(false, false, None)
            && (u.next.Some? <==> b.next.Some?)
            && (b.next.Some? ==> u.next == Some(b.next.value.(ib := None, ibSet := false, continuity := None)))
  {
    var b1 := AppropriationReversed(b);
    ReverseAppropriation(closing, b);
    ReverseOpening(closing, b1);
    hide Chained, AtMostOne, AppropriationEntry, OpeningEntry;
  }

  lemma TakenBackAre(closing: nat, b: Books)
    requires WellKept(closing, b)
    ensures forall i: nat :: i < |b.journal| ==>
              (TakenBack(closing, b, i) <==>
                 || AppropriationEntry(b) == Some(i) || OpeningEntry(b) == Some(i)
                 || (i == closing && b.journal[closing].status == Posted))
  {
    forall i: nat | i < |b.journal| && TakenBack(closing, b, i) && i != closing
      ensures AppropriationEntry(b) == Some(i) || OpeningEntry(b) == Some(i)
    {
      if b.journal[i].source == ResultAppropriation {
        assert PostedInNext(b.journal[i], ResultAppropriation);
      } else {
        assert IsOpeningBalance(b.journal, b.next.value.ib, i);
      }
    }
  }

  // ----- a run killed between two steps -----

  datatype BookStep = ReverseStep(i: nat) | ContinuityStep | ReopenStep | DetachStep

  /** The order the script keeps when its lookups of the next period succeed. */
  ghost predicate InOrder(closing: nat, b: Books, step: BookStep) {
    match step
    case ReverseStep(i) =>
      || AppropriationEntry(b) == Some(i)
      || (AppropriationEntry(b) == None && OpeningEntry(b) == Some(i))
      || (AppropriationEntry(b) == None && OpeningEntry(b) == None && i == closing && CanReverse(b, closing))
    case _ => AppropriationEntry(b) == None && OpeningEntry(b) == None
  }

  function Apply(b: Books, step: BookStep): Books
    requires step.ReverseStep? ==> CanReverse(b, step.i)
  {
    match step
    case ReverseStep(i) => Reverse(b, i)
    case ContinuityStep => ContinuityReset(b)
    case ReopenStep => Reopened(b)
    case DetachStep => Detached(b)
  }

  /** Each step in order leaves the end of the undo, and its terms, where they were. */
  lemma StepKeepsUndone(closing: nat, b: Books, step: BookStep)
    requires WellKept(closing, b) && InOrder(closing, b, step)
    ensures WellKept(closing, Apply(b, step)) && Undone(closing, Apply(b, step)) == Undone(closing, b)
  {
    hide Chained, AtMostOne;
    match step {
      case ReverseStep(i) =>
        ReverseAppropriation(closing, b);
        if AppropriationEntry(b) == None {
          ReverseOpening(closing, b);
          if OpeningEntry(b) == None {
            ReverseClosing(closing, b);
          }
        }
      case _ =>
        FieldSteps(closing, b);
        FieldSteps(closing, Apply(b, step));
    }
  }

  // ----- a run whose lookups failed -----

  /**
   What a run learned of the next year: all of it, its entries up to some
   point, or nothing. A failed read of the entries reads as "none", a failed
   lookup of the period as "no period", and a long reply may be cut short.
   */
  datatype Sight = All | UpTo(n: nat) | Nothing

  /** A reply has at most this many rows; the service drops the rest. */
  const REPLY_ROWS := 1000

  /** The rows asked for among the first `n` entries: the next year's, but for cancelled ones. */
  function Rows(journal: seq<Entry>, n: nat): nat
    requires n <= |journal|
  {
    if n == 0 then 0
    else Rows(journal, n - 1)
         + (if journal[n - 1].period == NextYear && journal[n - 1].status != Cancelled then 1 else 0)
  }

  ghost predicate FitsReply(b: Books) {
    Rows(b.journal, |b.journal|) <= REPLY_ROWS
  }

  /** All is seen but for entries behind a failed call, or behind those that fill a reply. */
  ghost predicate SightIs(seen: Sight, b: Books, faultless: bool) {
    match seen
    case All => true
    case Nothing => !faultless
    case UpTo(n) =>
      || (n == 0 && !faultless)
      || (n <= |b.journal| && Rows(b.journal, n) == REPLY_ROWS && !FitsReply(b))
  }

  ghost function AppropriationSeen(seen: Sight, b: Books): (i: Option<nat>)
    ensures i.Some? ==> CanReverse(b, i.value) && b.journal[i.value].source == ResultAppropriation
  {
    if b.next.None? || seen == Nothing then None
    else LastAppropriation(b.journal, if seen == All then |b.journal| else Min(seen.n, |b.journal|))
  }

  ghost function OpeningSeen(seen: Sight, b: Books): (i: Option<nat>)
    ensures i.Some? ==> CanReverse(b, i.value) && b.journal[i.value].source == OpeningBalance
  {
    if b.next.None? || seen == Nothing then None
    else LastOpeningBalance(b.journal, b.next.value.ib, if seen == All then |b.journal| else Min(seen.n, |b.journal|))
  }

  /** The generated entries that were seen are taken back, the appropriation first. */
  ghost function GeneratedReversed(seen: Sight, b: Books): Books {
    var b1 := if AppropriationSeen(seen, b).Some? then Reverse(b, AppropriationSeen(seen, b).value) else b;
    if OpeningSeen(seen, b).Some? then Reverse(b1, OpeningSeen(seen, b).value) else b1
  }

  ghost function UndoneSeeing(seen: Sight, closing: nat, b: Books): Books {
    var b2 := GeneratedReversed(seen, b);
    Detached(ClosingReversed(closing, Reopened(if seen == Nothing then b2 else ContinuityReset(b2))))
  }

  lemma AllIsSeen(closing: nat, b: Books)
    ensures GeneratedReversed(All, b) == OpeningReversed(AppropriationReversed(b))
    ensures UndoneSeeing(All, closing, b) == Undone(closing, b)
  {
    AppropriationLeavesOpening(b);
  }

  /** The next year as the final check sees it: not at all, if the period was not found. */
  ghost function CheckedBy(seen: Sight, b: Books): Books {
    if seen == Nothing then b.(next := None) else b
  }

  /** The next year held nothing the run failed to see. */
  ghost predicate NothingMissed(seen: Sight, b: Books) {
    && AppropriationSeen(seen, b) == AppropriationEntry(b) && OpeningSeen(seen, b) == OpeningEntry(b)
    && (seen == Nothing && b.next.Some? ==> b.next.value.continuity == None)
  }

  /** Of well-kept books a part shows the one entry there is, or nothing. */
  lemma SeenOrMissed(seen: Sight, closing: nat, b: Books)
    requires WellKept(closing, b)
    ensures AppropriationSeen(seen, b) == AppropriationEntry(b) || AppropriationSeen(seen, b) == None
    ensures OpeningSeen(seen, b) == OpeningEntry(b) || OpeningSeen(seen, b) == None
  {
    if AppropriationSeen(seen, b).Some? && AppropriationEntry(b).Some? {
      var i, j := AppropriationSeen(seen, b).value, AppropriationEntry(b).value;
      assert PostedInNext(b.journal[i], ResultAppropriation) && PostedInNext(b.journal[j], ResultAppropriation);
    }
    if OpeningSeen(seen, b).Some? && OpeningEntry(b).Some? {
      var i, j := OpeningSeen(seen, b).value, OpeningEntry(b).value;
      assert PostedInNext(b.journal[i], OpeningBalance) && PostedInNext(b.journal[j], OpeningBalance);
    }
  }

  /** The books after the generated entries that were seen are taken back. */
  lemma SeenIsReversed(seen: Sight, closing: nat, b: Books)
    requires WellKept(closing, b)
    ensures var b2 := GeneratedReversed(seen, b);
            && WellKept(closing, b2) && b2.period == b.period && (b2.next.Some? <==> b.next.Some?)
            && b2.journal[closing] == b.journal[closing]
            && AppropriationEntry(b2) == (if AppropriationSeen(seen, b).Some? then None else AppropriationEntry(b))
            && OpeningEntry(b2) == (if OpeningSeen(seen, b).Some? then None else OpeningEntry(b))
            && (OpeningSeen(seen, b).None? ==> b2.next == b.next)
            && (b2.next.Some? && OpeningSeen(seen, b).Some? ==>
                  b2.next.value.ib.None? && !b2.next.value.ibSet)
            && (AppropriationSeen(seen, b) == AppropriationEntry(b) && OpeningSeen(seen, b) == OpeningEntry(b) ==>
                  b2 == OpeningReversed(AppropriationReversed(b)))
  {
    SeenOrMissed(seen, closing, b);
    hide Chained, AtMostOne, AppropriationEntry, OpeningEntry, AppropriationSeen, OpeningSeen;
    ReverseAppropriation(closing, b);
    ReverseOpening(closing, b);
    ReverseOpening(closing, AppropriationReversed(b));
  }

  /**
   A run ends in the undone state exactly when the next year held nothing it
   failed to see. It passes its own check also when it did miss something: in
   an unread period always, among unread entries unless the opening balance is
   linked. What was not seen stays posted, and the closing entry is detached
   all the same, so that a re-run refuses because nothing is left to undo.
   */
  lemma RightIffNothingMissed(seen: Sight, closing: nat, b: Books)
    requires WellKept(closing, b)
    ensures UndoneSeeing(seen, closing, b) == Undone(closing, b) <==> NothingMissed(seen, b)
    ensures Verified(closing, CheckedBy(seen, UndoneSeeing(seen, closing, b))) <==>
              (seen != Nothing && b.next.Some? && OpeningSeen(seen, b).None? ==>
                 b.next.value.ib.None? && !b.next.value.ibSet)
    ensures UndoneSeeing(seen, closing, b).period.closing == None
    ensures AppropriationEntry(UndoneSeeing(seen, closing, b))
            == if AppropriationSeen(seen, b).Some? then None else AppropriationEntry(b)
    ensures OpeningEntry(UndoneSeeing(seen, closing, b))
            == if OpeningSeen(seen, b).Some? then None else OpeningEntry(b)
  {
    EndsUndoneIff(seen, closing, b);
    SeenOrMissed(seen, closing, b);
    SeenIsReversed(seen, closing, b);
    var b2 := GeneratedReversed(seen, b);
    StillThere(closing, b2, if seen == Nothing then b2 else ContinuityReset(b2));
    hide Chained, AtMostOne, AppropriationEntry, OpeningEntry, NothingMissed, Undone;
  }

  lemma EndsUndoneIff(seen: Sight, closing: nat, b: Books)
    requires WellKept(closing, b)
    ensures UndoneSeeing(seen, closing, b) == Undone(closing, b) <==> NothingMissed(seen, b)
  {
    UndoneIsVerified(closing, b);
    SeenOrMissed(seen, closing, b);
    SeenIsReversed(seen, closing, b);
    var b2 := GeneratedReversed(seen, b);
    var b3 := if seen == Nothing then b2 else ContinuityReset(b2);
    StillThere(closing, b2, b3);
    hide Chained, AtMostOne, AppropriationEntry, OpeningEntry;
    if NothingMissed(seen, b) && seen == Nothing {
      assert b2 == b && b3 == b && ContinuityReset(b) == b;
      assert OpeningReversed(AppropriationReversed(b)) == b;
    }
    if seen == Nothing && b.next.Some? && b.next.value.continuity != None {
      ContinuityGoes(closing, b);
    }
  }

  lemma ContinuityGoes(closing: nat, b: Books)
    requires closing < |b.journal| && b.journal[closing].source == YearEnd && b.next.Some?
    ensures UndoneSeeing(Nothing, closing, b).next == b.next
    ensures Undone(closing, b).next.Some? ==> Undone(closing, b).next.value.continuity == None
  {
    hide AppropriationEntry, OpeningEntry, LastAppropriation, LastOpeningBalance, OpeningReversed,
         AppropriationReversed;
  }

  /** Reopening, reversing the closing entry and letting go of it leave the next year's entries as they are. */
  lemma StillThere(closing: nat, b: Books, b1: Books)
    requires closing < |b.journal| && b.journal[closing].period == ClosedPeriod && b.journal[closing].source == YearEnd
    requires b.journal[closing].status == Posted || b.journal[closing].status == Reversed
    requires b1 == b || b1 == ContinuityReset(b)
    ensures var ended := Detached(ClosingReversed(closing, Reopened(b1)));
            && AppropriationEntry(ended) == AppropriationEntry(b) && OpeningEntry(ended) == OpeningEntry(b)
            && ended.next == b1.next && ended.period == Period(false, false, None)
            && closing < |ended.journal| && ended.journal[closing].status == Reversed
  {
    if b.journal[closing].status == Posted {
      var b3 := Reverse(Reopened(b1), closing);
      SameOpening(Reopened(b1), b3);
      SameLastAppropriation(b.journal, b3.journal, |b.journal|);
    }
  }

  ghost function NetIfSome(b: Books, i: Option<nat>, account: string): int {
    if i.Some? && i.value < |b.journal| then Net(b.journal[i.value].lines, account) else 0
  }

  lemma StageNets(closing: nat, b: Books, account: string)
    requires closing < |b.journal| && b.journal[closing].source == YearEnd
    ensures LedgerNet(AppropriationReversed(b).journal, account) ==
            LedgerNet(b.journal, account) - NetIfSome(b, AppropriationEntry(b), account)
    ensures LedgerNet(OpeningReversed(b).journal, account) ==
            LedgerNet(b.journal, account) - NetIfSome(b, OpeningEntry(b), account)
    ensures LedgerNet(ClosingReversed(closing, b).journal, account) ==
            LedgerNet(b.journal, account) - NetIfPosted(b, closing, account)
  {
    if AppropriationEntry(b).Some? { ReverseTakesOffTheNet(b, AppropriationEntry(b).value, account); }
    if OpeningEntry(b).Some? { ReverseTakesOffTheNet(b, OpeningEntry(b).value, account); }
    if CanReverse(b, closing) { ReverseTakesOffTheNet(b, closing, account); }
  }

  ghost function NetIfPosted(b: Books, i: nat, account: string): int
    requires i < |b.journal|
  {
    if b.journal[i].status == Posted then Net(b.journal[i].lines, account) else 0
  }

  lemma OpeningLinesKept(closing: nat, b: Books, account: string)
    requires WellKept(closing, b)
    ensures NetIfSome(AppropriationReversed(b), OpeningEntry(b), account) == NetIfSome(b, OpeningEntry(b), account)
  {
    ReverseAppropriation(closing, b);
  }

  /** The undo takes the closing entry and the two generated entries off the ledger, and nothing else. */
  lemma UndoneLedger(closing: nat, b: Books, account: string)
    requires WellKept(closing, b)
    ensures LedgerNet(Undone(closing, b).journal, account) ==
            LedgerNet(b.journal, account)
            - NetIfSome(b, AppropriationEntry(b), account)
            - NetIfSome(b, OpeningEntry(b), account)
            - NetIfPosted(b, closing, account)
  {
    hide LedgerNet, Net, NetIfSome, Chained, AtMostOne, AppropriationReversed, OpeningReversed, ClosingReversed,
         AppropriationEntry, OpeningEntry;
    var b1 := AppropriationReversed(b);
    ReverseAppropriation(closing, b);
    OpeningLinesKept(closing, b, account);
    var b2 := OpeningReversed(b1);
    ReverseOpening(closing, b1);
    var b4 := Reopened(ContinuityReset(b2));
    assert b4.journal[closing] == b.journal[closing];
    StageNets(closing, b, account);
    StageNets(closing, b1, account);
    StageNets(closing, b4, account);
  }
}
