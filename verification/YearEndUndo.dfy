/**
 The administrative undo of a year-end closing: a sequence of committed calls
 that may be killed between any two, while signers act on the annual report.
 */
module YearEndUndo {
  import opened Prelude
  import opened YearEndGate
  import opened YearEndBooks

  datatype State = State(report: Report, books: Books)

  datatype Event =
    | Signers
    | Call
    | SupersededVersion(v: nat)
    | BooksChanged(step: BookStep)

  /** The journal is only touched, and the period only reopened, when no signature is on record or possible. */
  ghost predicate Licensed(closing: nat, s: State, e: Event) {
    match e
    case Signers => true
    case Call => true
    case SupersededVersion(v) => ReadyAt(s.report, v)
    case BooksChanged(step) =>
      && Clear(s.report)
      && (step.ReverseStep? ==>
            CanReverse(s.books, step.i) && (step.i == closing ==> !s.books.period.isClosed && !s.books.period.locked))
      && (step.DetachStep? ==> Detachable(closing, s.books))
  }

  /** The database lets go of a closing entry only once its storno is posted. */
  predicate Detachable(closing: nat, b: Books) {
    closing < |b.journal| && b.journal[closing].status == Reversed && Stornos(b.journal, closing) != {}
  }

  function SupersedeIn(r: Report, v: nat): Report
    requires v in r.versions
  {
    r.(versions := r.versions[v := r.versions[v].(status := Superseded)])
  }

  ghost predicate Step(closing: nat, s: State, e: Event, s': State) {
    && Licensed(closing, s, e)
    && match e
       case Signers => s'.books == s.books && SignerStep(s.report, s'.report)
       case Call => s' == s
       case SupersededVersion(v) => s' == s.(report := SupersedeIn(s.report, v))
       case BooksChanged(step) => s' == s.(books := Apply(s.books, step))
  }

  datatype TraceEntry = TraceEntry(event: Event, state: State)

  ghost function Reached(start: State, trace: seq<TraceEntry>): State {
    if trace == [] then start else trace[|trace| - 1].state
  }

  /** Every prefix of a trace is one, so `Reached` of a trace is any state a run can be killed in. */
  ghost predicate Trace(closing: nat, start: State, trace: seq<TraceEntry>) {
    if trace == [] then true
    else
      var before := trace[..|trace| - 1];
      var last := trace[|trace| - 1];
      Trace(closing, start, before) && Step(closing, Reached(start, before), last.event, last.state)
  }

  /** Every change to the books came in the script's order. */
  ghost predicate Ordered(closing: nat, start: State, trace: seq<TraceEntry>) {
    if trace == [] then true
    else
      var before := trace[..|trace| - 1];
      var last := trace[|trace| - 1];
      && Ordered(closing, start, before)
      && (last.event.BooksChanged? ==> InOrder(closing, Reached(start, before).books, last.event.step))
  }

  ghost predicate TouchedBooks(trace: seq<TraceEntry>) {
    exists k :: 0 <= k < |trace| && trace[k].event.BooksChanged?
  }

  // ----- the signer race -----

  lemma StepKeepsClear(closing: nat, s: State, e: Event, s': State)
    requires Step(closing, s, e, s') && Clear(s.report)
    ensures Clear(s'.report)
  {
    if e.Signers? {
      ClearIsStable(s.report, s'.report);
    }
  }

  /**
   The signer race: from the first change to the books on, the reopen
   included, no signature is on record, and none can be recorded any more.
   */
  lemma {:induction false} NoSignatureOnceBooksAreTouched(closing: nat, start: State, trace: seq<TraceEntry>)
    requires Trace(closing, start, trace) && TouchedBooks(trace)
    ensures Clear(Reached(start, trace).report)
    ensures var r := Reached(start, trace).report;
            && (forall q :: q in r.requests ==> r.requests[q].status != SignedRequest && r.requests[q].signedAt == None)
            && (forall v :: v in r.versions ==> r.versions[v].status != ReadyForSignature)
  {
    var before := trace[..|trace| - 1];
    var last := trace[|trace| - 1];
    var s := Reached(start, before);
    if last.event.BooksChanged? {
      assert Clear(s.report);
    } else {
      var k :| 0 <= k < |trace| && trace[k].event.BooksChanged?;
      assert before[k] == trace[k];
      NoSignatureOnceBooksAreTouched(closing, start, before);
    }
    StepKeepsClear(closing, s, last.event, last.state);
  }

  /** Had a signature been recorded at any point before, the period is as closed as it was. */
  lemma NeverReopenedAfterASignature(closing: nat, start: State, trace: seq<TraceEntry>)
    requires Trace(closing, start, trace) && !Unsigned(Reached(start, trace).report)
    ensures Reached(start, trace).books == start.books
  {
    if TouchedBooks(trace) {
      NoSignatureOnceBooksAreTouched(closing, start, trace);
    }
    UntouchedBooks(closing, start, trace);
  }

  lemma {:induction false} UntouchedBooks(closing: nat, start: State, trace: seq<TraceEntry>)
    requires Trace(closing, start, trace)
    ensures !TouchedBooks(trace) ==> Reached(start, trace).books == start.books
  {
    if trace != [] {
      var before := trace[..|trace| - 1];
      UntouchedBooks(closing, start, before);
      assert TouchedBooks(before) ==> TouchedBooks(trace) by {
        if TouchedBooks(before) {
          var k :| 0 <= k < |before| && before[k].event.BooksChanged?;
          assert trace[k].event.BooksChanged?;
        }
      }
      assert trace[|trace| - 1].event.BooksChanged? ==> TouchedBooks(trace);
    }
  }

  // ----- the order of the links -----

  /** A period never abandons a live closing entry, and never loses it while shut. */
  ghost predicate LinksInOrder(closing: nat, b: Books) {
    && closing < |b.journal|
    && (b.period.closing == None ==> b.journal[closing].status == Reversed)
    && (b.journal[closing].status == Reversed ==> !b.period.isClosed && !b.period.locked)
  }

  lemma {:induction false} EveryReachableStateHasLinksInOrder(closing: nat, start: State, trace: seq<TraceEntry>)
    requires Trace(closing, start, trace) && LinksInOrder(closing, start.books)
    ensures LinksInOrder(closing, Reached(start, trace).books)
  {
    if trace != [] {
      EveryReachableStateHasLinksInOrder(closing, start, trace[..|trace| - 1]);
    }
  }

  // ----- resumability -----

  /** Wherever a run with working lookups is killed, the end of the undo is where it was. */
  lemma {:induction false} EveryReachableStateKeepsUndone(closing: nat, start: State, trace: seq<TraceEntry>)
    requires Trace(closing, start, trace) && Ordered(closing, start, trace) && WellKept(closing, start.books)
    ensures WellKept(closing, Reached(start, trace).books)
    ensures Undone(closing, Reached(start, trace).books) == Undone(closing, start.books)
  {
    if trace != [] {
      var before := trace[..|trace| - 1];
      var last := trace[|trace| - 1];
      EveryReachableStateKeepsUndone(closing, start, before);
      if last.event.BooksChanged? {
        StepKeepsUndone(closing, Reached(start, before).books, last.event.step);
      }
    }
  }

  // ----- the remote side -----

  datatype Reply<+T> = Ok(value: T) | Err

  class Office {
    var report: Report
    var books: Books

    ghost const closing: nat    // the closing entry to be undone
    ghost const start: State
    ghost var trace: seq<TraceEntry>
    ghost var faultless: bool   // no call failed so far
    ghost var undisturbed: bool // no signer acted so far
    ghost var seen: Sight       // what the lookups of the next year showed so far

    function Now(): State
      reads this
    {
      State(report, books)
    }

    ghost predicate Valid()
      reads this
    {
      && Trace(closing, start, trace)
      && Now() == Reached(start, trace)
      && (Guided() ==> Ordered(closing, start, trace))
    }

    /** The run sees what there is to undo, and the books held no surprises. */
    ghost predicate Guided()
      reads this
    {
      seen == All && WellKept(closing, start.books)
    }

    constructor (report: Report, books: Books, ghost closing: nat)
      ensures Valid() && trace == [] && faultless && undisturbed && seen == All
      ensures start == Now() == State(report, books) && this.closing == closing
    {
      this.report, this.books, this.closing := report, books, closing;
      start := State(report, books);
      trace, faultless, undisturbed, seen := [], true, true, All;
    }

    ghost method Record(before: State, event: Event)
      requires Trace(closing, start, trace) && before == Reached(start, trace)
      requires Step(closing, before, event, Now())
      requires Guided() ==>
                 Ordered(closing, start, trace) && (event.BooksChanged? ==> InOrder(closing, before.books, event.step))
      modifies this`trace
      ensures Valid() && trace == old(trace) + [TraceEntry(event, Now())]
    {
      ghost var longer := trace + [TraceEntry(event, Now())];
      assert longer[..|longer| - 1] == trace;
      trace := longer;
    }

    /** Signers take their turn. */
    method Interfere()
      requires Valid()
      modifies this`report, this`trace, this`undisturbed
      ensures Valid() && books == old(books)
      ensures SignerStep(old(report), report)
      ensures undisturbed ==> old(undisturbed) && report == old(report)
      ensures old(trace) <= trace
    {
      hide Trace, Ordered;
      var before := Now();
      SignerStepReflexive(report);
      var newReport :| SignerStep(report, newReport);
      undisturbed := undisturbed && newReport == report;
      report := newReport;
      Record(before, Signers);
    }

    /** A call that only reads: it fails or it does not. */
    method Attempt() returns (fails: bool)
      requires Valid()
      modifies this`report, this`trace, this`undisturbed, this`faultless
      ensures Valid()
      ensures SignerStep(old(report), report)
      ensures undisturbed ==> old(undisturbed) && report == old(report)
      ensures faultless <==> old(faultless) && !fails
      ensures old(trace) < trace && trace[|trace| - 1].state == Now()
    {
      hide Trace, Ordered;
      Interfere();
      fails := *;
      faultless := faultless && !fails;
      Record(Now(), Call);
    }

    /** A failed lookup of the next year, or a reply cut short, goes unnoticed. */
    ghost method LoseSight(less: Sight)
      requires Valid() && less != All
      modifies this`seen
      ensures Valid() && seen == less
    {
      seen := less;
    }

    /** Compare-and-set on the version's status; replies with the number of rows changed. */
    method Supersede(v: nat) returns (reply: Reply<nat>, ghost mid: Report)
      requires Valid()
      modifies this`report, this`trace, this`undisturbed, this`faultless
      ensures Valid() && books == old(books) && SignerStep(old(report), mid)
      ensures (ReadyAt(mid, v) && report == SupersedeIn(mid, v)) || ((!reply.Ok? || !ReadyAt(mid, v)) && report == mid)
      ensures reply.Ok? ==> reply.value == (if ReadyAt(mid, v) then 1 else 0)
      ensures undisturbed ==> old(undisturbed) && mid == old(report)
      ensures faultless <==> old(faultless) && reply.Ok?
      ensures old(trace) <= trace
    {
      hide Trace, Ordered;
      Interfere();
      mid := report;
      var before := Now();
      var fails: bool, lands: bool := *, *;
      faultless := faultless && !fails;
      var matched := ReadyAt(report, v);
      if matched && (!fails || lands) {
        report := SupersedeIn(report, v);
        Record(before, SupersededVersion(v));
      } else {
        Record(before, Call);
      }
      reply := if fails then Err else Ok(if matched then 1 else 0);
    }

    /** A committed change to the books; a failed call may have landed all the same. */
    method Change(step: BookStep) returns (fails: bool)
      requires Valid() && Licensed(closing, Now(), BooksChanged(step))
      requires Guided() ==> InOrder(closing, books, step)
      modifies this
      ensures Valid() && (books == Apply(old(books), step) || (fails && books == old(books)))
      ensures Clear(report)
      ensures undisturbed ==> old(undisturbed) && report == old(report)
      ensures faultless <==> old(faultless) && !fails
      ensures seen == old(seen)
      ensures old(trace) <= trace
    {
      hide Trace, Ordered, InOrder, SignerStep, Clear;
      ghost var report0 := report;
      Interfere();
      ClearIsStable(report0, report);
      var before := Now();
      fails := *;
      var lands: bool := *;
      faultless := faultless && !fails;
      if !fails || lands {
        books := Apply(books, step);
        Record(before, BooksChanged(step));
      } else {
        Record(before, Call);
      }
    }
  }

  lemma SignerStepReflexive(r: Report)
    ensures SignerStep(r, r)
  {
  }
}
