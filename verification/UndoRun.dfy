/**
 One run of the year-end undo script: the gate, the lookups, the ordered and
 separately committed writes, the final check, and the re-run of a killed one.
 */
module UndoRun {
  import opened Prelude
  import opened IsoDates
  import opened YearEndGate
  import opened YearEndBooks
  import opened YearEndUndo

  datatype Reason =
    | NothingToUndo
    | GateShut
    | CompanyLocked
    | BadClosingEntry
    | NextPeriodShut
    | VersionChanged
    | SignatureRecorded
    | NotReversible
    | NotDetachable
    | CallFailed

  datatype Outcome = Blocked(reason: Reason) | DryRun | Completed | VerificationFailed

  /** What the operator passes, what the narrative and the company say, and how the next period is linked. */
  datatype Setting = Setting(commit: bool, today: IsoDate, agmDate: Option<IsoDate>, periodEnd: IsoDate,
                             lockedThrough: Option<IsoDate>, backLinked: bool, adjoining: bool)

  // ----- the gate's reads -----

  ghost predicate RequestRows(rows: seq<GateRequest>, r: Report) {
    forall row :: row in rows <==> row.id in r.requests && r.requests[row.id] == row.request
  }

  ghost predicate VersionRows(rows: seq<GateVersion>, r: Report) {
    && Distinct(rows)
    && forall row :: row in rows <==> row.id in r.versions && r.versions[row.id] == Version(row.number, row.status)
  }

  method SelectRequests(r: Report) returns (rows: seq<GateRequest>)
    ensures RequestRows(rows, r)
  {
    rows := [];
    var ids := r.requests.Keys;
    while ids != {}
      invariant ids <= r.requests.Keys
      invariant forall row :: row in rows <==>
                  row.id in r.requests && row.id !in ids && r.requests[row.id] == row.request
    {
      var id :| id in ids;
      rows, ids := rows + [GateRequest(id, r.requests[id])], ids - {id};
    }
  }

  method SelectVersions(r: Report) returns (rows: seq<GateVersion>)
    ensures VersionRows(rows, r)
  {
    rows := [];
    var ids := r.versions.Keys;
    while ids != {}
      invariant ids <= r.versions.Keys && Distinct(rows)
      invariant forall row :: row in rows <==>
                  row.id in r.versions && row.id !in ids && r.versions[row.id] == Version(row.number, row.status)
    {
      var id :| id in ids;
      var v := r.versions[id];
      assert GateVersion(id, v.number, v.status) !in rows;
      rows, ids := rows + [GateVersion(id, v.number, v.status)], ids - {id};
    }
  }

  method SelectSubmissions(r: Report) returns (rows: seq<string>)
    ensures |rows| == |r.submissions|
    ensures forall status :: status in rows <==> exists id :: id in r.submissions && r.submissions[id] == status
  {
    rows := [];
    var ids := r.submissions.Keys;
    while ids != {}
      invariant ids <= r.submissions.Keys && |rows| + |ids| == |r.submissions|
      invariant forall status :: status in rows <==>
                  exists id :: id in r.submissions && id !in ids && r.submissions[id] == status
    {
      var id :| id in ids;
      rows, ids := rows + [r.submissions[id]], ids - {id};
    }
  }

  datatype Table = Submissions | Requests | Versions | Narrative

  datatype GateReads = GateReads(submissions: seq<string>, requests: seq<GateRequest>, versions: seq<GateVersion>,
                                 agmDate: Option<string>)

  /** The reports the submissions, the requests and the versions were read from. */
  datatype Moments = Moments(submissions: Report, requests: Report, versions: Report)

  /** Requests as they stood at one moment, versions as they stood at another, whichever came first. */
  ghost predicate SplitReads(reads_: GateReads, pending: set<Table>, at: Moments, now: Report) {
    && (Submissions !in pending ==> |reads_.submissions| == |at.submissions.submissions|)
    && (Requests !in pending ==> RequestRows(reads_.requests, at.requests) && SignerStep(at.requests, now))
    && (Versions !in pending ==> VersionRows(reads_.versions, at.versions) && SignerStep(at.versions, now))
    && (Requests !in pending && Versions !in pending ==>
          SignerStep(at.requests, at.versions) || SignerStep(at.versions, at.requests))
  }

  lemma NothingReadYet(reads_: GateReads, r: Report)
    ensures SplitReads(reads_, {Submissions, Requests, Versions, Narrative}, Moments(r, r, r), r)
  {
  }

  lemma OneMoreRead(earlier: GateReads, reads_: GateReads, pending: set<Table>, table: Table, at: Moments,
                    at': Moments, now: Report)
    requires SplitReads(earlier, pending, at, now) && table in pending && SignerStep(now, now)
    requires if table == Submissions then
               |reads_.submissions| == |now.submissions| && at'.submissions == now
             else
               reads_.submissions == earlier.submissions && at'.submissions == at.submissions
    requires if table == Requests then RequestRows(reads_.requests, now) && at'.requests == now
             else reads_.requests == earlier.requests && at'.requests == at.requests
    requires if table == Versions then VersionRows(reads_.versions, now) && at'.versions == now
             else reads_.versions == earlier.versions && at'.versions == at.versions
    ensures SplitReads(reads_, pending - {table}, at', now)
  {
    hide SignerStep, RequestRows, VersionRows;
  }

  lemma SplitReadsLater(reads_: GateReads, pending: set<Table>, at: Moments, now: Report, later: Report)
    requires SplitReads(reads_, pending, at, now) && SignerStep(now, later)
    ensures SplitReads(reads_, pending, at, later)
  {
    hide SignerStep, RequestRows, VersionRows;
    if Requests !in pending { SignerStepTransitive(at.requests, now, later); }
    if Versions !in pending { SignerStepTransitive(at.versions, now, later); }
  }

  /** The report was like that at some point of the run. */
  ghost predicate WasSo(trace: seq<TraceEntry>, r: Report) {
    exists k :: 0 <= k < |trace| && trace[k].state.report == r
  }

  ghost predicate AllWereSo(trace: seq<TraceEntry>, pending: set<Table>, at: Moments) {
    && (Submissions !in pending ==> WasSo(trace, at.submissions))
    && (Requests !in pending ==> WasSo(trace, at.requests))
    && (Versions !in pending ==> WasSo(trace, at.versions))
  }

  lemma StillWereSo(trace: seq<TraceEntry>, longer: seq<TraceEntry>, pending: set<Table>, at: Moments)
    requires AllWereSo(trace, pending, at) && trace <= longer
    ensures AllWereSo(longer, pending, at)
  {
    forall r | WasSo(trace, r) ensures WasSo(longer, r) {
      var k :| 0 <= k < |trace| && trace[k].state.report == r;
      assert longer[k] == trace[k];
    }
  }

  lemma IsSoNow(trace: seq<TraceEntry>, s: State)
    requires trace != [] && trace[|trace| - 1].state == s
    ensures WasSo(trace, s.report)
  {
  }

  /** One table, as it stands. */
  method Select(r: Report, table: Table, reads_: GateReads, agmDate: Option<IsoDate>, ghost at: Moments)
      returns (reads': GateReads, ghost at': Moments)
    ensures if table == Submissions then |reads'.submissions| == |r.submissions| && at'.submissions == r
            else reads'.submissions == reads_.submissions && at'.submissions == at.submissions
    ensures if table == Requests then RequestRows(reads'.requests, r) && at'.requests == r
            else reads'.requests == reads_.requests && at'.requests == at.requests
    ensures if table == Versions then VersionRows(reads'.versions, r) && at'.versions == r
            else reads'.versions == reads_.versions && at'.versions == at.versions
    ensures reads'.agmDate == if table == Narrative then agmDate else reads_.agmDate
  {
    match table {
      case Submissions =>
        var rows := SelectSubmissions(r);
        reads', at' := reads_.(submissions := rows), at.(submissions := r);
      case Requests =>
        var rows := SelectRequests(r);
        reads', at' := reads_.(requests := rows), at.(requests := r);
      case Versions =>
        var rows := SelectVersions(r);
        reads', at' := reads_.(versions := rows), at.(versions := r);
      case Narrative =>
        reads', at' := reads_.(agmDate := agmDate), at;
    }
  }

  /** Four concurrent reads: each sees the report at its own moment, in any order; a failed one returns nothing. */
  method ReadGate(office: Office, agmDate: Option<IsoDate>) returns (found: Option<GateReads>, ghost at: Moments)
    requires office.Valid()
    modifies office`report, office`trace, office`undisturbed, office`faultless
    ensures office.Valid() && SignerStep(old(office.report), office.report)
    ensures found.Some? ==> SplitReads(found.value, {}, at, office.report) && AllWereSo(office.trace, {}, at)
    ensures found.Some? ==> found.value.agmDate == agmDate
    ensures office.undisturbed ==> old(office.undisturbed) && office.report == old(office.report)
    ensures office.undisturbed && found.Some? ==> at == Moments(office.report, office.report, office.report)
    ensures old(office.faultless) ==> (office.faultless <==> found.Some?)
    ensures office.faultless ==> old(office.faultless)
    ensures old(office.trace) <= office.trace
  {
    hide Trace, Ordered, SignerStep, WellKept, RequestRows, VersionRows, SplitReads, WasSo, AllWereSo;
    ghost var report0 := office.report;
    var reads_ := GateReads([], [], [], None);
    var pending, failed := {Submissions, Requests, Versions, Narrative}, false;
    at := Moments(report0, report0, report0);
    SignerStepReflexive(report0);
    NothingReadYet(reads_, report0);
    assert AllWereSo(office.trace, pending, at) by { NothingWasSoYet(office.trace, at); }
    while pending != {}
      invariant office.Valid() && SignerStep(report0, office.report)
      invariant !failed ==> SplitReads(reads_, pending, at, office.report) && AllWereSo(office.trace, pending, at)
      invariant !failed && Narrative !in pending ==> reads_.agmDate == agmDate
      invariant office.undisturbed ==>
                  old(office.undisturbed) && office.report == report0 && at == Moments(report0, report0, report0)
      invariant office.faultless <==> old(office.faultless) && !failed
      invariant old(office.trace) <= office.trace
      invariant pending <= {Submissions, Requests, Versions, Narrative}
    {
      var table :| table in pending;
      ghost var before, trace0 := office.report, office.trace;
      var fails := office.Attempt();
      SignerStepTransitive(report0, before, office.report);
      if fails {
        failed := true;
      } else {
        ghost var earlier, at0 := reads_, at;
        reads_, at := Select(office.report, table, reads_, agmDate, at);
        if !failed {
          SplitReadsLater(earlier, pending, at0, before, office.report);
          StillWereSo(trace0, office.trace, pending, at0);
          IsSoNow(office.trace, office.Now());
          SignerStepReflexive(office.report);
          OneMoreRead(earlier, reads_, pending, table, at0, at, office.report);
          OneMoreWasSo(office.trace, pending, table, at0, at, office.report);
        }
      }
      pending := pending - {table};
    }
    found := if failed then None else Some(reads_);
  }

  lemma NothingWasSoYet(trace: seq<TraceEntry>, at: Moments)
    ensures AllWereSo(trace, {Submissions, Requests, Versions, Narrative}, at)
  {
  }

  lemma OneMoreWasSo(trace: seq<TraceEntry>, pending: set<Table>, table: Table, at: Moments, at': Moments, now: Report)
    requires AllWereSo(trace, pending, at) && WasSo(trace, now)
    requires at'.submissions == (if table == Submissions then now else at.submissions)
    requires at'.requests == (if table == Requests then now else at.requests)
    requires at'.versions == (if table == Versions then now else at.versions)
    ensures AllWereSo(trace, pending - {table}, at')
  {
    hide WasSo;
  }

  // ----- voiding the stale report -----

  ghost function VersionIds(versions: seq<GateVersion>): set<nat> {
    set row | row in versions :: row.id
  }

  ghost predicate Voided(r: Report, versions: seq<GateVersion>, n: nat)
    requires n <= |versions|
  {
    forall j :: 0 <= j < n ==> versions[j].id in r.versions && r.versions[versions[j].id].status == Superseded
  }

  lemma VoidedLater(r: Report, later: Report, versions: seq<GateVersion>, n: nat)
    requires n <= |versions| && Voided(r, versions, n) && SignerStep(r, later)
    ensures Voided(later, versions, n)
  {
    forall j | 0 <= j < n
      ensures versions[j].id in later.versions && later.versions[versions[j].id].status == Superseded
    {
      assert Progress(r.versions[versions[j].id].status, later.versions[versions[j].id].status);
    }
  }

  /** One compare-and-set that went through. */
  lemma OneMoreVoided(r: Report, versions: seq<GateVersion>, n: nat, targets: set<nat>)
    requires n < |versions| && Voided(r, versions, n) && Confined(r, targets) && ReadyAt(r, versions[n].id)
    ensures Voided(SupersedeIn(r, versions[n].id), versions, n + 1)
    ensures Confined(SupersedeIn(r, versions[n].id), targets)
  {
    var v := versions[n].id;
    var r' := SupersedeIn(r, v);
    forall w | ReadyAt(r', w) ensures w in targets { assert ReadyAt(r, w); }
    forall q | SignedAt(r', q) ensures r'.requests[q].version.Some? && r'.requests[q].version.value in targets {
      assert SignedAt(r, q);
    }
  }

  ghost function IdsInOrder(versions: seq<GateVersion>): seq<nat> {
    seq(|versions|, i requires 0 <= i < |versions| => versions[i].id)
  }

  /** With every version that was ready superseded and no signature on record, none can come any more. */
  lemma VoidedIsClear(r: Report, versions: seq<GateVersion>)
    requires Confined(r, VersionIds(versions)) && Voided(r, versions, |versions|)
    ensures NoneReady(r)
    ensures versions == [] || Unsigned(r) ==> Clear(r)
  {
    forall v | v in r.versions ensures r.versions[v].status != ReadyForSignature {
      if v in VersionIds(versions) {
        var j :| 0 <= j < |versions| && versions[j].id == v;
        assert r.versions[versions[j].id].status == Superseded;
      } else {
        assert !ReadyAt(r, v);
      }
    }
    if versions == [] {
      forall q | q in r.requests ensures !IsSigned(r.requests[q]) { assert !SignedAt(r, q); }
    }
  }

  /** Everything the supersede loop has to find for a run nobody interferes with. */
  ghost predicate Voidable(r: Report, versions: seq<GateVersion>, n: nat) {
    && Distinct(IdsInOrder(versions)) && Unsigned(r)
    && forall j :: n <= j < |versions| ==> ReadyAt(r, versions[j].id)
  }

  /** Supersede what is still open for signature, then look for a signature that came in between. */
  method VoidReport(office: Office, versions: seq<GateVersion>) returns (stop: Option<Reason>)
    requires office.Valid() && Confined(office.report, VersionIds(versions))
    modifies office`report, office`trace, office`undisturbed, office`faultless
    ensures office.Valid()
    ensures stop.None? ==> Clear(office.report)
    ensures stop.Some? ==> stop.value in {VersionChanged, SignatureRecorded, CallFailed}
    ensures office.undisturbed ==> old(office.undisturbed)
    ensures office.faultless <==> old(office.faultless) && stop != Some(CallFailed)
    ensures office.faultless && office.undisturbed && Voidable(old(office.report), versions, 0) ==> stop.None?
    ensures old(office.trace) <= office.trace
  {
    hide Trace, Ordered, SignerStep, WellKept, Clear, Confined, Voided, Voidable;
    ghost var report0 := office.report;
    NothingVoidedYet(report0, versions);
    for i := 0 to |versions|
      invariant office.Valid() && Confined(office.report, VersionIds(versions)) && Voided(office.report, versions, i)
      invariant office.undisturbed ==> old(office.undisturbed)
      invariant office.faultless <==> old(office.faultless)
      invariant office.undisturbed && Voidable(report0, versions, 0) ==> Voidable(office.report, versions, i)
      invariant old(office.trace) <= office.trace
    {
      ghost var before := office.report;
      var reply, mid := office.Supersede(versions[i].id);
      ConfinedIsStable(before, mid, VersionIds(versions));
      VoidedLater(before, mid, versions, i);
      if reply.Err? {
        return Some(CallFailed);
      }
      if reply.value == 0 {
        NotVoidable(mid, versions, i);
        return Some(VersionChanged);
      }
      OneMoreVoided(mid, versions, i, VersionIds(versions));
      StillVoidable(mid, versions, i);
    }
    VoidedIsClear(office.report, versions);
    if versions != [] {
      ghost var before := office.report;
      var fails := office.Attempt();
      if fails {
        return Some(CallFailed);
      }
      ConfinedIsStable(before, office.report, VersionIds(versions));
      VoidedLater(before, office.report, versions, |versions|);
      VoidedIsClear(office.report, versions);
      if !Unsigned(office.report) {
        NotVoidable(office.report, versions, |versions|);
        return Some(SignatureRecorded);
      }
    }
    return None;
  }

  lemma NothingVoidedYet(r: Report, versions: seq<GateVersion>)
    ensures Voided(r, versions, 0)
  {
  }

  lemma NotVoidable(r: Report, versions: seq<GateVersion>, n: nat)
    requires n <= |versions|
    requires !Unsigned(r) || (n < |versions| && !ReadyAt(r, versions[n].id))
    ensures !Voidable(r, versions, n)
  {
  }

  lemma StillVoidable(r: Report, versions: seq<GateVersion>, n: nat)
    requires n < |versions| && ReadyAt(r, versions[n].id)
    ensures Voidable(r, versions, n) ==> Voidable(SupersedeIn(r, versions[n].id), versions, n + 1)
  {
    forall j | n < j < |versions| && Voidable(r, versions, n)
      ensures ReadyAt(SupersedeIn(r, versions[n].id), versions[j].id)
    {
      assert IdsInOrder(versions)[n] != IdsInOrder(versions)[j];
    }
  }

  // ----- the lookups -----

  /** What the lookups came back with, by how far they got. */
  ghost predicate FoundIn(b: Books, seen: Sight, next: Option<Next>, ib: Option<nat>, appropriation: Option<nat>) {
    && next == (if seen == Nothing then None else b.next)
    && ib == OpeningSeen(seen, b)
    && appropriation == AppropriationSeen(seen, b)
  }

  /** One lookup of the next period: what is not linked that way is not found, and neither is anything on an error. */
  method Lookup(office: Office, linked: bool) returns (found: Option<Next>)
    requires office.Valid()
    modifies office`report, office`trace, office`undisturbed, office`faultless
    ensures office.Valid() && SignerStep(old(office.report), office.report)
    ensures found.Some? ==> linked && found == office.books.next
    ensures old(office.faultless) && linked && office.books.next.Some? ==> (office.faultless <==> found.Some?)
    ensures office.undisturbed ==> old(office.undisturbed) && office.report == old(office.report)
    ensures office.faultless ==> old(office.faultless)
    ensures old(office.trace) <= office.trace
  {
    var fails := office.Attempt();
    found := if !fails && linked then office.books.next else None;
  }

  /** By the back link first, by date otherwise; an error counts as "none". */
  method FindNext(office: Office, setting: Setting) returns (next: Option<Next>)
    requires office.Valid() && office.seen == All
    requires office.books.next.Some? ==> setting.backLinked || setting.adjoining
    modifies office`report, office`trace, office`undisturbed, office`faultless, office`seen
    ensures office.Valid() && SignerStep(old(office.report), office.report)
    ensures office.seen in {All, Nothing} && next == if office.seen == All then office.books.next else None
    ensures office.faultless ==> office.seen == All
    ensures office.undisturbed ==> old(office.undisturbed) && office.report == old(office.report)
    ensures office.faultless ==> old(office.faultless)
    ensures old(office.trace) <= office.trace
  {
    hide Trace, Ordered, SignerStep, WellKept;
    ghost var report0 := office.report;
    next := Lookup(office, setting.backLinked);
    if next.None? {
      ghost var report1 := office.report;
      next := Lookup(office, setting.adjoining);
      SignerStepTransitive(report0, report1, office.report);
      if next != office.books.next {
        office.LoseSight(Nothing);
      }
    }
  }

  /** The last posted match of each kind; an error reads as "no entries", and the reply may be cut short. */
  method ScanNext(office: Office, next: Next) returns (ib: Option<nat>, appropriation: Option<nat>)
    requires office.Valid() && office.seen == All && office.books.next == Some(next)
    modifies office`report, office`trace, office`undisturbed, office`faultless, office`seen
    ensures office.Valid() && SignerStep(old(office.report), office.report)
    ensures office.seen != Nothing && FoundIn(office.books, office.seen, Some(next), ib, appropriation)
    ensures SightIs(office.seen, office.books, office.faultless)
    ensures old(office.faultless) && !office.faultless ==> office.seen == UpTo(0)
    ensures office.undisturbed ==> old(office.undisturbed) && office.report == old(office.report)
    ensures office.faultless ==> old(office.faultless)
    ensures old(office.trace) <= office.trace
  {
    hide Trace, Ordered, SignerStep, WellKept;
    ib, appropriation := None, None;
    var fails := office.Attempt();
    if fails {
      office.LoseSight(UpTo(0));
      return;
    }
    var journal := office.books.journal;
    assert |journal| <= |journal|;
    var n: nat :| n <= |journal|
                  && (n == |journal| || Rows(journal, n) == REPLY_ROWS < Rows(journal, |journal|));
    if n < |journal| {
      office.LoseSight(UpTo(n));
    }
    for i := 0 to n
      invariant ib == LastOpeningBalance(journal, next.ib, i) && appropriation == LastAppropriation(journal, i)
    {
      var e := journal[i];
      if e.period == NextYear && e.status == Posted {
        if e.source == OpeningBalance && (next.ib.None? || next.ib == Some(i)) {
          ib := Some(i);
        } else if e.source == ResultAppropriation {
          appropriation := Some(i);
        }
      }
    }
  }

  // ----- the writes -----

  /** The closing entry is in the journal, in the closed year, and either posted or already reversed. */
  ghost predicate Closeable(closing: nat, b: Books) {
    Reversible(closing, b) && b.journal[closing].period != NextYear
  }

  /** What every stage of the writes needs and keeps. */
  ghost predicate Stage(office: Office, b: Books)
    reads office
  {
    office.Valid() && Clear(office.report) && office.books == b
  }

  /** The stages of an undo of well-kept books, each ready for the next. */
  lemma Stages(closing: nat, b: Books)
    requires WellKept(closing, b)
    ensures var b1 := AppropriationReversed(b);
            var b2 := OpeningReversed(b1);
            var b3 := ContinuityReset(b2);
            var b4 := Reopened(b3);
            var b5 := ClosingReversed(closing, b4);
            && AppropriationEntry(b1) == None && OpeningEntry(b1) == OpeningEntry(b)
            && AppropriationEntry(b2) == None && OpeningEntry(b2) == None
            && AppropriationEntry(b3) == None && OpeningEntry(b3) == None
            && AppropriationEntry(b4) == None && OpeningEntry(b4) == None
            && AppropriationEntry(b5) == None && OpeningEntry(b5) == None
            && (CanReverse(b4, closing) <==> CanReverse(b, closing))
            && Detachable(closing, b5)
  {
    hide Chained, AtMostOne, AppropriationEntry, OpeningEntry;
    var b1 := AppropriationReversed(b);
    ReverseAppropriation(closing, b);
    var b2 := OpeningReversed(b1);
    ReverseOpening(closing, b1);
    FieldSteps(closing, b2);
    FieldSteps(closing, ContinuityReset(b2));
    var b4 := Reopened(ContinuityReset(b2));
    ReverseClosing(closing, b4);
    ReversedIsDetachable(closing, ClosingReversed(closing, b4));
  }

  lemma ReversedIsDetachable(closing: nat, b: Books)
    requires WellKept(closing, b) && b.journal[closing].status == Reversed
    ensures Detachable(closing, b)
  {
    assert ChainOk(b.journal, closing);
  }

  /** The two stages, each of them licensed, and of well-kept books in order. */
  lemma GeneratedSteps(closing: nat, seen: Sight, b: Books)
    requires Closeable(closing, b)
    ensures var appropriation, ib := AppropriationSeen(seen, b), OpeningSeen(seen, b);
            var b1 := if appropriation.Some? then Reverse(b, appropriation.value) else b;
            var b2 := GeneratedReversed(seen, b);
            && (ib.Some? ==> CanReverse(b1, ib.value)) && b2 == (if ib.Some? then Reverse(b1, ib.value) else b1)
            && Closeable(closing, b2) && b2.period == b.period && b2.journal[closing] == b.journal[closing]
            && (seen == All && WellKept(closing, b) ==>
                  && (appropriation.Some? ==> InOrder(closing, b, ReverseStep(appropriation.value)))
                  && (ib.Some? ==> InOrder(closing, b1, ReverseStep(ib.value))))
  {
    AppropriationLeavesOpening(b);
    if seen == All && WellKept(closing, b) {
      ReverseAppropriation(closing, b);
    }
  }

  /** Storno the generated entries of the new year, the appropriation first. */
  method ReverseGenerated(office: Office, ib: Option<nat>, appropriation: Option<nat>) returns (fails: bool)
    requires Stage(office, office.start.books) && Closeable(office.closing, office.books)
    requires exists next :: FoundIn(office.books, office.seen, next, ib, appropriation)
    modifies office
    ensures office.Valid() && Clear(office.report)
    ensures !fails ==> Closeable(office.closing, office.books)
                       && office.books.period == old(office.books.period)
                       && office.books.journal[office.closing] == old(office.books.journal[office.closing])
    ensures !fails ==> office.books == GeneratedReversed(office.seen, old(office.books))
    ensures office.books.next.Some? == old(office.books.next.Some?)
    ensures office.seen == old(office.seen)
    ensures office.undisturbed ==> old(office.undisturbed) && office.report == old(office.report)
    ensures office.faultless <==> old(office.faultless) && !fails
    ensures old(office.trace) <= office.trace
  {
    hide Trace, Ordered, SignerStep, WellKept, Clear, AppropriationSeen, OpeningSeen, GeneratedReversed, InOrder,
         Closeable;
    GeneratedSteps(office.closing, office.seen, office.books);
    fails := false;
    if appropriation.Some? {
      fails := office.Change(ReverseStep(appropriation.value));
      if fails { return; }
    }
    if ib.Some? {
      fails := office.Change(ReverseStep(ib.value));
    }
  }

  /** Reset continuity and open the period again. */
  method ReopenPeriod(office: Office, closing: nat, next: Option<Next>, ghost b2: Books) returns (fails: bool)
    requires closing == office.closing
    requires Stage(office, b2) && Closeable(closing, b2)
    requires office.Guided() ==> b2 == OpeningReversed(AppropriationReversed(office.start.books))
    requires next.Some? == (office.seen != Nothing && b2.next.Some?)
    modifies office
    ensures office.Valid() && Clear(office.report)
    ensures !fails ==> Closeable(closing, office.books) && office.books.journal == b2.journal
                       && office.books.period == Period(false, false, b2.period.closing)
    ensures !fails ==> office.books == Reopened(if office.seen == Nothing then b2 else ContinuityReset(b2))
    ensures office.books.next.Some? == old(office.books.next.Some?)
    ensures office.seen == old(office.seen)
    ensures office.undisturbed ==> old(office.undisturbed) && office.report == old(office.report)
    ensures office.faultless <==> old(office.faultless) && !fails
    ensures old(office.trace) <= office.trace
  {
    hide Trace, Ordered, SignerStep, WellKept, Clear, AppropriationEntry, OpeningEntry, Undone;
    if office.Guided() { Stages(closing, office.start.books); }
    var period := office.books.period;
    fails := false;
    if next.Some? {
      fails := office.Change(ContinuityStep);
      if fails { return; }
    }
    if period.isClosed || period.locked {
      fails := office.Change(ReopenStep);
    }
  }

  /** Storno the closing entry and only then let go of it. */
  method ReverseAndDetach(office: Office, closing: nat, ghost b4: Books) returns (stop: Option<Reason>)
    requires closing == office.closing
    requires Stage(office, b4) && Closeable(closing, b4) && !b4.period.isClosed && !b4.period.locked
    requires office.Guided() ==>
               b4 == Reopened(ContinuityReset(OpeningReversed(AppropriationReversed(office.start.books))))
    modifies office
    ensures office.Valid() && Clear(office.report)
    ensures stop.None? ==> closing < |office.books.journal| && office.books.journal[closing].status == Reversed
                           && office.books.period == Period(false, false, None)
    ensures stop.None? ==> office.books == Detached(ClosingReversed(closing, b4))
    ensures stop.None? ==> Stornos(office.books.journal, closing) != {}
    ensures office.books.next.Some? == old(office.books.next.Some?)
    ensures stop.Some? ==> stop.value in {NotReversible, NotDetachable, CallFailed}
    ensures office.seen == old(office.seen)
    ensures office.undisturbed ==> old(office.undisturbed) && office.report == old(office.report)
    ensures office.faultless <==> old(office.faultless) && stop != Some(CallFailed)
    ensures office.faultless && office.Guided() ==> stop.None?
    ensures old(office.trace) <= office.trace
  {
    hide Trace, Ordered, SignerStep, WellKept, Clear, AppropriationReversed, OpeningReversed, AppropriationEntry,
         OpeningEntry;
    if office.Guided() { Stages(closing, office.start.books); }
    var entry := office.books.journal[closing];
    var fails: bool;
    if entry.status == Posted {
      if entry.source == Storno {
        return Some(NotReversible);
      }
      fails := office.Change(ReverseStep(closing));
      if fails { return Some(CallFailed); }
    }
    if !Detachable(closing, office.books) {
      return Some(NotDetachable);
    }
    fails := office.Change(DetachStep);
    stop := if fails then Some(CallFailed) else None;
  }

  /** The script's final check, on what its three reads return. */
  method VerifyUndone(office: Office, closing: nat, next: Option<Next>) returns (ok: bool)
    requires office.Valid() && (next.Some? ==> office.books.next.Some?)
    modifies office`report, office`trace, office`undisturbed, office`faultless
    ensures office.Valid() && SignerStep(old(office.report), office.report)
    ensures ok ==> Verified(closing, office.books.(next := if next.None? then None else office.books.next))
    ensures office.faultless && Verified(closing, office.books) ==> ok
    ensures old(office.faultless) && ok ==> office.faultless
    ensures office.undisturbed ==> old(office.undisturbed) && office.report == old(office.report)
    ensures office.faultless ==> old(office.faultless)
    ensures old(office.trace) <= office.trace
  {
    hide Trace, Ordered, SignerStep, WellKept;
    ghost var report0 := office.report;
    var entryFails := office.Attempt();
    var b := office.books;
    ghost var report1 := office.report;
    var periodFails := office.Attempt();
    SignerStepTransitive(report0, report1, office.report);
    ok := !entryFails && !periodFails
          && closing < |b.journal| && b.journal[closing].status == Reversed
          && !b.period.isClosed && !b.period.locked && b.period.closing.None?;
    if next.Some? {
      ghost var report2 := office.report;
      var nextFails := office.Attempt();
      SignerStepTransitive(report0, report2, office.report);
      ok := ok && !nextFails && b.next.value.ib.None? && !b.next.value.ibSet;
    }
  }

  // ----- the whole run -----

  predicate LockCovers(setting: Setting) {
    setting.lockedThrough.Some? && DateAtMost(setting.periodEnd, setting.lockedThrough.value)
  }

  /** The books are locked through the day the period ends, or a later one. */
  ghost predicate LockedAtItsEnd(setting: Setting) {
    setting.lockedThrough.Some? && NotAfter(setting.periodEnd, setting.lockedThrough.value)
  }

  lemma LockCoversIff(setting: Setting)
    ensures LockCovers(setting) <==> LockedAtItsEnd(setting)
  {
    if setting.lockedThrough.Some? {
      StringOrderIsDateOrder(setting.periodEnd, setting.lockedThrough.value);
    }
  }

  /** No submission, nothing signed or dated, and no version signed, filed or registered. */
  ghost predicate OnlyPaperwork(r: Report) {
    && r.submissions == map[]
    && (forall q :: q in r.requests ==>
          (r.requests[q].status == Pending || r.requests[q].status == Declined) && r.requests[q].signedAt == None)
    && (forall v :: v in r.versions ==>
          || r.versions[v].status == Draft || r.versions[v].status == ReadyForSignature
          || r.versions[v].status == Superseded)
  }

  /** The same of three tables, each as it was when it was read. */
  ghost predicate ReadOnlyPaperwork(at: Moments) {
    && at.submissions.submissions == map[]
    && (forall q :: q in at.requests.requests ==>
          && (at.requests.requests[q].status == Pending || at.requests.requests[q].status == Declined)
          && at.requests.requests[q].signedAt == None)
    && (forall v :: v in at.versions.versions ==>
          || at.versions.versions[v].status == Draft || at.versions.versions[v].status == ReadyForSignature
          || at.versions.versions[v].status == Superseded)
  }

  /** The closing entry is on record, posted or already reversed. */
  ghost predicate OnRecord(closing: nat, b: Books) {
    closing < |b.journal| && (b.journal[closing].status == Posted || b.journal[closing].status == Reversed)
  }

  /** The next period is closed, has a closing entry or is locked. */
  ghost predicate NextIsDone(b: Books) {
    b.next.Some? && (b.next.value.isClosed || b.next.value.closing != None || b.next.value.locked)
  }

  /** What the script asks for before it changes anything. */
  ghost predicate Undoable(setting: Setting, closing: nat, s: State) {
    && s.books.period.closing.Some?
    && OnlyPaperwork(s.report)
    && !LockedAtItsEnd(setting)
    && OnRecord(closing, s.books)
    && !NextIsDone(s.books)
  }

  /** The gate as the script runs it: read, evaluate, and carry over what is to be superseded. */
  method Gate(office: Office, today: IsoDate, agmDate: Option<IsoDate>)
      returns (stop: Option<Reason>, targets: seq<GateVersion>, ghost at: Moments)
    requires office.Valid()
    modifies office`report, office`trace, office`undisturbed, office`faultless
    ensures office.Valid() && SignerStep(old(office.report), office.report)
    ensures stop.None? ==> Confined(office.report, VersionIds(targets))
    ensures stop.None? ==> ReadOnlyPaperwork(at) && AllWereSo(office.trace, {}, at)
    ensures stop.Some? ==> stop.value in {GateShut, CallFailed}
    ensures old(office.faultless) ==> (office.faultless <==> stop != Some(CallFailed))
    ensures office.undisturbed ==> old(office.undisturbed) && office.report == old(office.report)
    ensures office.faultless ==> old(office.faultless)
    ensures office.faultless && office.undisturbed ==> (stop.None? <==> OnlyPaperwork(office.report))
    ensures office.undisturbed && stop.None? ==> Voidable(office.report, targets, 0)
    ensures old(office.trace) <= office.trace
  {
    hide Trace, Ordered, SignerStep, WellKept, Confined, DateAtMost, WasSo;
    var found;
    found, at := ReadGate(office, agmDate);
    targets := [];
    if found.None? {
      return Some(CallFailed), [], at;
    }
    var reads_ := found.value;
    var gate := EvaluateYearEndUndoGate(reads_.submissions, reads_.requests, reads_.versions, reads_.agmDate, today);
    targets := gate.versionsToSupersede;
    GateReadsAre(reads_, at, targets);
    if gate.blockers != [] {
      return Some(GateShut), targets, at;
    }
    SplitReadsConfine(at.requests, at.versions, office.report);
    stop := None;
  }

  lemma GateReadsAre(reads_: GateReads, at: Moments, targets: seq<GateVersion>)
    requires |reads_.submissions| == |at.submissions.submissions|
    requires RequestRows(reads_.requests, at.requests) && VersionRows(reads_.versions, at.versions)
    requires Distinct(targets)
    requires forall v :: v in targets <==> v in reads_.versions && v.status == ReadyForSignature
    ensures (&& reads_.submissions == []
             && (forall r :: r in reads_.requests ==>
                   (r.request.status == Pending || r.request.status == Declined) && r.request.signedAt == None)
             && (forall v :: v in reads_.versions ==>
                   v.status == Draft || v.status == ReadyForSignature || v.status == Superseded))
            <==> ReadOnlyPaperwork(at)
    ensures ReadOnlyPaperwork(at) ==> Unsigned(at.requests) && NoneBinding(at.versions)
    ensures VersionIds(targets) == ReadyVersions(at.versions)
    ensures Unsigned(at.versions) ==> Voidable(at.versions, targets, 0)
  {
    var requests, versions, atRequests, atVersions := reads_.requests, reads_.versions, at.requests, at.versions;
    forall q | q in atRequests.requests ensures GateRequest(q, atRequests.requests[q]) in requests {}
    forall v | v in atVersions.versions
      ensures GateVersion(v, atVersions.versions[v].number, atVersions.versions[v].status) in versions
    {}
    forall v | v in ReadyVersions(atVersions) ensures v in VersionIds(targets) {
      assert GateVersion(v, atVersions.versions[v].number, ReadyForSignature) in targets;
    }
    forall i, j | 0 <= i < j < |targets| ensures IdsInOrder(targets)[i] != IdsInOrder(targets)[j] {
      assert targets[i] in versions && targets[j] in versions;
    }
    forall j | 0 <= j < |targets| ensures ReadyAt(atVersions, targets[j].id) {
      assert targets[j] in versions;
    }
  }

  datatype Plan = Plan(closing: nat, targets: seq<GateVersion>, next: Option<Next>, ib: Option<nat>,
      appropriation: Option<nat>)

  /** The company lock and the closing entry; an error reading the settings counts as "no lock". */
  method CheckEntry(office: Office, setting: Setting, closing: nat)
      returns (stop: Option<Reason>, ghost lockRead: bool, ghost entryRead: bool)
    requires office.Valid()
    modifies office`report, office`trace, office`undisturbed, office`faultless
    ensures office.Valid() && SignerStep(old(office.report), office.report)
    ensures stop == Some(CompanyLocked) <==> lockRead && LockedAtItsEnd(setting)
    // a covering lock that could not be read lets the run go on
    ensures stop.None? <==> !(lockRead && LockedAtItsEnd(setting)) && entryRead && OnRecord(closing, office.books)
    ensures stop == Some(CallFailed) <==> !(lockRead && LockedAtItsEnd(setting)) && !entryRead
    ensures stop.Some? ==> stop.value in {CompanyLocked, BadClosingEntry, CallFailed}
    ensures office.faultless ==> old(office.faultless) && lockRead && (stop != Some(CompanyLocked) ==> entryRead)
    ensures office.undisturbed ==> old(office.undisturbed) && office.report == old(office.report)
    ensures old(office.trace) <= office.trace
  {
    hide Trace, Ordered, SignerStep, WellKept, DateAtMost, Unsigned, NoneBinding, NotAfter;
    LockCoversIff(setting);
    ghost var r0 := office.report;
    entryRead := false;
    var fails := office.Attempt();
    lockRead := !fails;
    if !fails && LockCovers(setting) {
      return Some(CompanyLocked), lockRead, entryRead;
    }
    ghost var r1 := office.report;
    fails := office.Attempt();
    entryRead := !fails;
    SignerStepTransitive(r0, r1, office.report);
    if fails {
      return Some(CallFailed), lockRead, entryRead;
    }
    if closing >= |office.books.journal|
       || (office.books.journal[closing].status != Posted && office.books.journal[closing].status != Reversed) {
      return Some(BadClosingEntry), lockRead, entryRead;
    }
    stop := None;
  }

  /** The closing entry is on record, and either posted or already reversed. */
  predicate Reversible(closing: nat, b: Books) {
    closing < |b.journal| && (b.journal[closing].status == Posted || b.journal[closing].status == Reversed)
  }

  predicate NextIsShut(next: Option<Next>) {
    next.Some? && (next.value.isClosed || next.value.closing.Some? || next.value.locked)
  }

  /** The next period and what the closing generated in it. */
  method FindGenerated(office: Office, setting: Setting)
      returns (stop: Option<Reason>, next: Option<Next>, ib: Option<nat>, appropriation: Option<nat>)
    requires office.Valid() && office.seen == All
    requires office.books.next.Some? ==> setting.backLinked || setting.adjoining
    modifies office`report, office`trace, office`undisturbed, office`faultless, office`seen
    ensures office.Valid() && SignerStep(old(office.report), office.report)
    ensures stop.None? ==> FoundIn(office.books, office.seen, next, ib, appropriation)
    ensures stop.Some? ==> stop.value == NextPeriodShut
    ensures stop.Some? <==> office.seen != Nothing && NextIsDone(office.books)
    ensures SightIs(office.seen, office.books, office.faultless)
    ensures office.undisturbed ==> old(office.undisturbed) && office.report == old(office.report)
    ensures office.faultless ==> old(office.faultless)
    ensures old(office.trace) <= office.trace
  {
    hide Trace, Ordered, SignerStep, WellKept;
    ghost var r0 := office.report;
    stop, ib, appropriation := None, None, None;
    next := FindNext(office, setting);
    if NextIsShut(next) {
      stop := Some(NextPeriodShut);
    } else if next.Some? {
      ghost var r1 := office.report;
      ib, appropriation := ScanNext(office, next.value);
      SignerStepTransitive(r0, r1, office.report);
    }
  }

  /** Everything the script reads before it writes. */
  method Prepare(office: Office, setting: Setting)
      returns (stop: Option<Reason>, plan: Plan, ghost lockRead: bool, ghost at: Moments)
    requires office.Valid() && office.seen == All
    requires office.books.next.Some? ==> setting.backLinked || setting.adjoining
    requires office.books.period.closing.Some? ==> office.books.period.closing == Some(office.closing)
    modifies office`report, office`trace, office`undisturbed, office`faultless, office`seen
    ensures office.Valid() && SignerStep(old(office.report), office.report)
    ensures stop.None? ==>
              && Confined(office.report, VersionIds(plan.targets))
              && plan.closing == office.closing && OnRecord(plan.closing, office.books)
              && ReadOnlyPaperwork(at) && AllWereSo(office.trace, {}, at)
              && !(lockRead && LockedAtItsEnd(setting))
    ensures office.faultless && stop.None? ==> lockRead
    ensures SightIs(office.seen, office.books, office.faultless)
    ensures stop.None? ==>
              && FoundIn(office.books, office.seen, plan.next, plan.ib, plan.appropriation)
    ensures stop.Some? ==>
              stop.value in {NothingToUndo, GateShut, CompanyLocked, BadClosingEntry, NextPeriodShut, CallFailed}
    ensures office.undisturbed ==> old(office.undisturbed) && office.report == old(office.report)
    ensures office.faultless ==> old(office.faultless)
    ensures office.faultless && office.undisturbed ==> (stop.None? <==> Undoable(setting, office.closing, office.Now()))
    ensures office.undisturbed && stop.None? ==> Voidable(office.report, plan.targets, 0)
    ensures old(office.trace) <= office.trace
  {
    hide Trace, Ordered, SignerStep, WellKept, Confined, Unsigned, NoneBinding, Voidable, FoundIn, OnlyPaperwork,
         ReadOnlyPaperwork, AllWereSo, LockedAtItsEnd, OnRecord, NextIsDone;
    plan := Plan(0, [], None, None, None);
    ghost var r0 := office.report;
    lockRead, at := false, Moments(r0, r0, r0);
    var fails := office.Attempt();
    if fails {
      return Some(CallFailed), plan, lockRead, at;
    }
    if office.books.period.closing.None? {
      return Some(NothingToUndo), plan, lockRead, at;
    }
    var closing := office.books.period.closing.value;
    ghost var r1 := office.report;
    var targets;
    stop, targets, at := Gate(office, setting.today, setting.agmDate);
    ghost var trace1 := office.trace;
    SignerStepTransitive(r0, r1, office.report);
    if stop.Some? {
      return;
    }
    ghost var r2 := office.report;
    ghost var entryRead;
    stop, lockRead, entryRead := CheckEntry(office, setting, closing);
    SignerStepTransitive(r0, r2, office.report);
    ConfinedIsStable(r2, office.report, VersionIds(targets));
    if stop.Some? {
      return;
    }
    ghost var r3 := office.report;
    var next, ib, appropriation;
    stop, next, ib, appropriation := FindGenerated(office, setting);
    SignerStepTransitive(r0, r3, office.report);
    ConfinedIsStable(r3, office.report, VersionIds(targets));
    if stop.None? { StillWereSo(trace1, office.trace, {}, at); }
    plan := Plan(closing, targets, next, ib, appropriation);
  }

  /** The writes, in order, each committed on its own. */
  method Execute(office: Office, plan: Plan) returns (stop: Option<Reason>)
    requires office.Valid() && office.books == office.start.books && plan.closing == office.closing
    requires Closeable(plan.closing, office.books) && Confined(office.report, VersionIds(plan.targets))
    requires FoundIn(office.books, office.seen, plan.next, plan.ib, plan.appropriation)
    modifies office
    ensures office.Valid()
    ensures stop.None? ==> Clear(office.report)
                           && plan.closing < |office.books.journal|
                              && office.books.journal[plan.closing].status == Reversed
                           && office.books.period == Period(false, false, None)
    ensures stop.None? ==> office.books == UndoneSeeing(office.seen, plan.closing, old(office.books))
    ensures stop.None? ==> Stornos(office.books.journal, plan.closing) != {}
    ensures stop.Some? && stop.value in {VersionChanged, SignatureRecorded} ==> office.books == old(office.books)
    ensures stop.Some? ==> stop.value in {VersionChanged, SignatureRecorded, NotReversible, NotDetachable, CallFailed}
    ensures office.books.next.Some? == old(office.books.next.Some?)
    ensures office.seen == old(office.seen)
    ensures office.undisturbed ==> old(office.undisturbed)
    ensures office.faultless <==> old(office.faultless) && stop != Some(CallFailed)
    ensures office.faultless && office.undisturbed && office.Guided()
            && Voidable(old(office.report), plan.targets, 0) ==>
              stop.None?
    ensures old(office.trace) <= office.trace
  {
    hide Trace, Ordered, SignerStep, WellKept, Confined, Voidable, Clear, AppropriationReversed, OpeningReversed,
         AppropriationEntry, OpeningEntry, ClosingReversed;
    stop := VoidReport(office, plan.targets);
    if stop.Some? {
      return;
    }
    var fails := ReverseGenerated(office, plan.ib, plan.appropriation);
    if fails {
      return Some(CallFailed);
    }
    if office.Guided() { AllIsSeen(plan.closing, office.start.books); }
    fails := ReopenPeriod(office, plan.closing, plan.next, office.books);
    if fails {
      return Some(CallFailed);
    }
    stop := ReverseAndDetach(office, plan.closing, office.books);
  }

  /** The writes, and the final check. */
  method Commit(office: Office, plan: Plan) returns (outcome: Outcome)
    requires office.Valid() && office.books == office.start.books && plan.closing == office.closing
    requires Closeable(plan.closing, office.books) && Confined(office.report, VersionIds(plan.targets))
    requires FoundIn(office.books, office.seen, plan.next, plan.ib, plan.appropriation)
    modifies office
    ensures office.Valid() && old(office.trace) <= office.trace && office.seen == old(office.seen)
    ensures outcome != DryRun
    ensures outcome.Blocked? && outcome.reason !in {NotReversible, NotDetachable, CallFailed} ==>
              office.books == old(office.books)
    ensures outcome == Completed ==>
              && Clear(office.report) && office.books.period == Period(false, false, None)
              && office.closing < |office.books.journal| && office.books.journal[office.closing].status == Reversed
              && Stornos(office.books.journal, office.closing) != {}
              && office.books == UndoneSeeing(office.seen, office.closing, old(office.books))
              && Verified(office.closing, CheckedBy(office.seen, office.books))
    ensures office.undisturbed ==> old(office.undisturbed)
    ensures office.faultless ==> old(office.faultless)
    ensures office.faultless && office.undisturbed && office.Guided()
            && Voidable(old(office.report), plan.targets, 0) ==>
              outcome == Completed
  {
    hide Trace, Ordered, SignerStep, WellKept, Confined, Voidable, Clear, Undone, AppropriationEntry, OpeningEntry,
         ClosingReversed, ContinuityReset, Stornos, Verified, UndoneSeeing, GeneratedReversed, AppropriationReversed,
         OpeningReversed, AppropriationSeen, OpeningSeen;
    var stop := Execute(office, plan);
    if stop.Some? {
      return Blocked(stop.value);
    }
    if office.Guided() {
      AllIsSeen(office.closing, old(office.books));
      UndoneIsVerified(office.closing, old(office.books));
    }
    ghost var r := office.report;
    var ok := VerifyUndone(office, plan.closing, plan.next);
    ClearIsStable(r, office.report);
    outcome := if ok then Completed else VerificationFailed;
  }

  method Undo(office: Office, setting: Setting) returns (outcome: Outcome, ghost lockRead: bool, ghost at: Moments)
    requires office.Valid() && office.trace == [] && office.faultless && office.undisturbed && office.seen == All
    requires office.books.next.Some? ==> setting.backLinked || setting.adjoining
    // the closing entry is the one the period names, and is booked in the closed year
    requires office.books.period.closing.Some? ==> office.books.period.closing == Some(office.closing)
    requires office.closing < |office.books.journal| ==> office.books.journal[office.closing].period != NextYear
    modifies office
    ensures office.Valid()
    // a dry run, and a run that is refused, change nothing in the books
    ensures !setting.commit ==> office.books == old(office.books) && SignerStep(old(office.report), office.report)
    ensures outcome.Blocked? && outcome.reason !in {NotReversible, NotDetachable, CallFailed} ==>
              office.books == old(office.books)
    // books are only changed when every table, as it was when it was read, held paperwork only, and no lock was read
    // that covers the end of the period; without faults the lock was read
    ensures office.books != old(office.books) ==> ReadOnlyPaperwork(at) && AllWereSo(office.trace, {}, at)
    ensures office.books != old(office.books) && lockRead ==> !LockedAtItsEnd(setting)
    ensures office.books != old(office.books) && office.faultless ==> lockRead
    // the signer race
    ensures office.books != old(office.books) ==>
              && Clear(office.report)
              && (forall q :: q in office.report.requests ==>
                    && office.report.requests[q].status != SignedRequest
                    && office.report.requests[q].signedAt == None)
              && (forall v :: v in office.report.versions ==>
                    office.report.versions[v].status != ReadyForSignature)
    // the closing entry is let go of, and stays reversed, only with the period open
    ensures LinksInOrder(office.closing, old(office.books)) ==> LinksInOrder(office.closing, office.books)
    // success means the undone state, and if lookups failed the one that shuts out what they would have shown
    ensures outcome == Completed ==>
              setting.commit && Clear(office.report) && office.books.period == Period(false, false, None)
    ensures outcome == Completed ==>
              && office.closing < |office.books.journal| && office.books.journal[office.closing].status == Reversed
              && exists j :: 0 <= j < |office.books.journal| && office.books.journal[j].source == Storno
                             && office.books.journal[j].status == Posted
                             && office.books.journal[j].reverses == Some(office.closing)
    ensures outcome == Completed ==>
              && office.books == UndoneSeeing(office.seen, office.closing, old(office.books))
              && Verified(office.closing, CheckedBy(office.seen, office.books))
    // nothing of the next year goes unseen but behind a failed call or a reply that is full
    ensures SightIs(office.seen, old(office.books), office.faultless)
    // left alone and without faults, it is exactly the preconditions that decide
    ensures office.faultless && office.undisturbed && office.Guided() ==>
              && (outcome == Completed <==> setting.commit && Undoable(setting, office.closing, old(office.Now())))
              && (outcome == DryRun <==> !setting.commit && Undoable(setting, office.closing, old(office.Now())))
              && (outcome != Completed ==> office.Now() == old(office.Now()))
  {
    hide Trace, Ordered, SignerStep, WellKept, Confined, Voidable, Clear, Undone, Undoable, LinksInOrder;
    hide AppropriationEntry, OpeningEntry, ClosingReversed, ContinuityReset, ReadOnlyPaperwork, LockedAtItsEnd,
         AllWereSo, Stornos, OnlyPaperwork, NextIsDone, Verified, SightIs;
    hide UndoneSeeing, GeneratedReversed, AppropriationReversed, OpeningReversed, AppropriationSeen, OpeningSeen;
    var stop, plan;
    stop, plan, lockRead, at := Prepare(office, setting);
    ghost var trace1, faultless1 := office.trace, office.faultless;
    if stop.Some? {
      return Blocked(stop.value), lockRead, at;
    }
    if !setting.commit {
      return DryRun, lockRead, at;
    }
    outcome := Commit(office, plan);
    StillWereSo(trace1, office.trace, {}, at);
    SightStays(office.seen, old(office.books), faultless1, office.faultless);
    LinksHold(office);
    StornoIsThere(office.closing, office.books);
    if office.books != old(office.books) { ChangedMeansClear(office); }
  }

  lemma SightStays(seen: Sight, b: Books, was: bool, faultless: bool)
    requires SightIs(seen, b, was) && (faultless ==> was)
    ensures SightIs(seen, b, faultless)
  {
  }

  lemma StornoIsThere(closing: nat, b: Books)
    ensures Stornos(b.journal, closing) != {} ==>
              exists j :: 0 <= j < |b.journal| && b.journal[j].source == Storno && b.journal[j].status == Posted
                          && b.journal[j].reverses == Some(closing)
  {
    if Stornos(b.journal, closing) != {} {
      var j :| j in Stornos(b.journal, closing);
    }
  }

  lemma LinksHold(office: Office)
    requires office.Valid()
    ensures LinksInOrder(office.closing, office.start.books) ==> LinksInOrder(office.closing, office.books)
  {
    if LinksInOrder(office.closing, office.start.books) {
      EveryReachableStateHasLinksInOrder(office.closing, office.start, office.trace);
    }
  }

  lemma ClearIsUnsigned(r: Report)
    requires Clear(r)
    ensures forall q :: q in r.requests ==> r.requests[q].status != SignedRequest && r.requests[q].signedAt == None
    ensures forall v :: v in r.versions ==> r.versions[v].status != ReadyForSignature
  {
  }

  lemma ChangedMeansClear(office: Office)
    requires office.Valid() && office.books != office.start.books
    ensures Clear(office.report)
    ensures forall q :: q in office.report.requests ==>
              office.report.requests[q].status != SignedRequest && office.report.requests[q].signedAt == None
    ensures forall v :: v in office.report.versions ==> office.report.versions[v].status != ReadyForSignature
  {
    UntouchedBooks(office.closing, office.start, office.trace);
    NoSignatureOnceBooksAreTouched(office.closing, office.start, office.trace);
    ClearIsUnsigned(office.report);
  }

  /**
   Resumability. `killed` is a run stopped at any point before the detach,
   after any failed calls and with signers at work, whose lookups of the next
   period succeeded. Run again without faults, the undo ends where the killed
   run was heading, verified and with one storno for every reversed entry, as
   soon as the preconditions hold; they need not be restored, as the books are
   never in a state the script refuses.
   */
  method ResumeUndo(killed: Office, setting: Setting) returns (office: Office, outcome: Outcome)
    requires killed.Valid() && killed.Guided() && setting.commit
    requires killed.start.books.period.closing == Some(killed.closing)
    requires killed.books.period.closing.Some?
    requires killed.books.next.Some? ==> setting.backLinked || setting.adjoining
    ensures office.Valid() && office.start == killed.Now() && office.closing == killed.closing
    ensures office.faultless && office.undisturbed && FitsReply(killed.books) ==>
              (outcome == Completed <==>
                 OnlyPaperwork(killed.report) && !LockedAtItsEnd(setting) && !NextIsDone(killed.start.books))
    ensures outcome == Completed && office.Guided() ==>
              office.books == Undone(killed.closing, killed.start.books)
              && Verified(killed.closing, office.books) && Chained(office.books.journal)
  {
    hide Trace, Ordered, SignerStep, OnlyPaperwork, LockedAtItsEnd, Undone, AtMostOne, Chained;
    EveryReachableStateKeepsUndone(killed.closing, killed.start, killed.trace);
    EveryReachableStateNamesTheEntry(killed.closing, killed.start, killed.trace);
    office := new Office(killed.report, killed.books, killed.closing);
    ghost var lockRead, at;
    outcome, lockRead, at := Undo(office, setting);
    AllIsSeen(killed.closing, killed.books);
    UndoneIsVerified(killed.closing, killed.start.books);
  }

  /** Until the detach the period names the closing entry, and nothing the undo does shuts the next period. */
  lemma {:induction false} EveryReachableStateNamesTheEntry(closing: nat, start: State, trace: seq<TraceEntry>)
    requires Trace(closing, start, trace)
    ensures var b := Reached(start, trace).books;
            && (b.period.closing == start.books.period.closing || b.period.closing == None)
            && (NextIsShut(b.next) <==> NextIsShut(start.books.next))
  {
    hide SignerStep, Clear;
    if trace != [] {
      EveryReachableStateNamesTheEntry(closing, start, trace[..|trace| - 1]);
    }
  }
}
