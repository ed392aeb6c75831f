/**
 Runs that show where the promises of the backfill stop: a page request that
 misses a row, a counter that misses an object, and a sweep that removes the
 last copy of another company's document.
 */
module BackfillLimits {
  import opened Prelude
  import opened StoragePaths
  import opened DocumentStore
  import opened MigrationLaws
  import opened RemovalLaws
  import opened Paging
  import opened BackfillGroup
  import opened SweepLegacy
  import opened Backfill

  // ----- an open gate over a legacy row -----

  predicate Between(lo: nat, id: nat, hi: nat) {
    lo <= id < hi
  }

  function Interval(lo: nat, hi: nat): set<nat> {
    set id: nat | id < hi && Between(lo, id, hi)
  }

  lemma {:induction false} IntervalInOrder(lo: nat, hi: nat)
    requires lo <= hi
    ensures SortedIds(Interval(lo, hi)) == seq(hi - lo, i requires 0 <= i < hi - lo => lo + i)
    decreases hi - lo
  {
    var ids := Interval(lo, hi);
    if lo < hi {
      assert hi - 1 in ids;
      Greatest(ids);
      var m :| IsGreatest(ids, m) && SortedIds(ids) == SortedIds(ids - {m}) + [m];
      assert m == hi - 1;
      assert ids - {m} == Interval(lo, hi - 1);
      IntervalInOrder(lo, hi - 1);
    }
  }

  const ROWS := PAGE_SIZE + 1

  /** A page full of rows at home, then one row on a legacy key. */
  function FullPageAndOne(home: Row, legacy: Row): map<nat, Row> {
    map id: nat | id < ROWS && Between(0, id, ROWS) :: if id < PAGE_SIZE then home else legacy
  }

  lemma ListedInterval(window: Option<string>, rows: map<nat, Row>, lo: nat, hi: nat)
    requires lo <= hi && rows.Keys == Interval(lo, hi)
    requires forall id :: id in rows ==> rows[id].path.Some? && InWindow(window, rows[id])
    ensures |Listing(window, rows)| == hi - lo && forall i :: 0 <= i < hi - lo ==> Listing(window, rows)[i] == lo + i
  {
    assert ListedIds(window, rows) == Interval(lo, hi);
    IntervalInOrder(lo, hi);
  }

  /**
   The first request reads a full page. One of its rows is deleted, the last
   row moves into the page already read, and the second request is empty: no
   row on a legacy key is seen, and a fault-free run opens its gate over one.
   */
  lemma OpenGateCanMissARow(scope: Scope, objects: map<string, Bytes>, home: Row, legacy: Row)
    requires AlreadyScoped(home) && Candidate(legacy)
    requires InWindow(scope.window, home) && InWindow(scope.window, legacy)
    requires LegacyKey(home).Some? && LegacyKey(home).value !in objects
    ensures var rows := FullPageAndOne(home, legacy);
            var start := State(objects, rows, rows.Keys);
            var later := start.(rows := rows - {0});
            var trace := Called(start, []) + [Entry(Environment, later)] + [Entry(Call(false), later)];
            && Initial(start) && Trace(scope, start, trace) && Reached(start, trace) == later
            && NothingSeen(Read(scope.window, Tables(start, trace, [2, 4])), objects)
            && StillLegacy(scope.window, later) == {PAGE_SIZE}
  {
    var rows := FullPageAndOne(home, legacy);
    var start := State(objects, rows, rows.Keys);
    var later := start.(rows := rows - {0});
    var trace := Called(start, []) + [Entry(Environment, later)] + [Entry(Call(false), later)];
    TwoRequests(scope, start, later);
    SecondPageIsEmpty(scope.window, home, legacy);
    TwoPages(scope.window, rows, later.rows);
    hide FullPageAndOne, Trace, Read, Tables, PageOf, Called;
    OneIsStillLegacy(scope.window, home, legacy, later);
  }

  lemma TwoRequests(scope: Scope, start: State, later: State)
    requires Initial(start) && EnvStep(scope.companies, start, later)
    ensures var trace := Called(start, []) + [Entry(Environment, later)] + [Entry(Call(false), later)];
            && Trace(scope, start, trace) && Reached(start, trace) == later && |trace| == 4
            && Tables(start, trace, [2, 4]) == [start.rows, later.rows]
  {
    var before := Called(start, []);
    assert |before| == 2 && Reached(start, before) == start;
    CalledIsTrace(scope, start, []);
    hide Trace, Called, EnvStep;
    TraceGrows(scope, start, before, Environment, later);
    TraceGrows(scope, start, before + [Entry(Environment, later)], Call(false), later);
    var trace := before + [Entry(Environment, later)] + [Entry(Call(false), later)];
    assert trace[..2] == before && trace[..4] == trace;
  }

  lemma TwoPages(window: Option<string>, rows: map<nat, Row>, later: map<nat, Row>)
    ensures Read(window, [rows, later]) == PageOf(window, rows, 0) + PageOf(window, later, PAGE_SIZE)
  {
    assert [rows, later][..1] == [rows] && [rows][..0] == [];
    assert Read(window, [rows]) == Read(window, []) + PageOf(window, rows, 0);
  }

  lemma OneIsStillLegacy(window: Option<string>, home: Row, legacy: Row, later: State)
    requires AlreadyScoped(home) && Candidate(legacy) && InWindow(window, legacy)
    requires later.rows == FullPageAndOne(home, legacy) - {0}
    ensures StillLegacy(window, later) == {PAGE_SIZE}
  {
    var still := StillLegacy(window, later);
    forall id ensures id in still <==> id in {PAGE_SIZE} {
      assert id in later.rows <==> id in Interval(1, ROWS);
    }
  }

  lemma SecondPageIsEmpty(window: Option<string>, home: Row, legacy: Row)
    requires AlreadyScoped(home) && Candidate(legacy) && InWindow(window, home) && InWindow(window, legacy)
    ensures var rows := FullPageAndOne(home, legacy);
            && (forall d :: d in PageOf(window, rows, 0) ==> d.row == home)
            && PageOf(window, rows - {0}, PAGE_SIZE) == []
  {
    var rows := FullPageAndOne(home, legacy);
    ListedInterval(window, rows, 0, PAGE_SIZE + 1);
    assert (rows - {0}).Keys == Interval(1, PAGE_SIZE + 1);
    ListedInterval(window, rows - {0}, 1, PAGE_SIZE + 1);
    var page := PageOf(window, rows, 0);
    forall d | d in page ensures d.row == home {
      var k :| 0 <= k < |page| && page[k] == d;
    }
  }

  // ----- a counter that misses an object -----

  /** Two rows on one key are fetched; one is moved, the other deleted before its turn. */
  ghost function OneOfTwoMoves(start: State, d: Doc): seq<Entry>
    requires Candidate(d.row) && d.row.path.value in start.objects
  {
    var moved := WithCopy(start, d).(rows := start.rows[d.id := Rehomed(d.row)]);
    var alone := moved.(rows := map[d.id := Rehomed(d.row)]);
    CopyCalls(start, d, Called(start, []))
    + [Entry(Environment, WithCopy(start, d))] + [Entry(Repointed(d), moved)]
    + [Entry(Environment, alone)] + [Entry(Call(false), alone)]
  }

  /**
   The group is not fully migrated, so its source is not counted as kept, and
   the sweep leaves the keys of the batch alone: the object is still there, and
   the object counter is 0. The row counter is not.
   */
  lemma ACounterCanMissAnObject(scope: Scope, row: Row, content: Bytes, p: Plan, report: Report)
    requires Candidate(row) && LayoutOk(scope.companies, row) && InWindow(scope.window, row) && row.hash == None
    requires var start := State(map[row.path.value := content], map[0 := row, 1 := row], {0, 1});
             p.docs == Read(scope.window, Tables(start, OneOfTwoMoves(start, Doc(0, row)), [2]))
    requires Planned(p, None) && ReportFrom(report, p, {0})
    ensures var start := State(map[row.path.value := content], map[0 := row, 1 := row], {0, 1});
            var trace := OneOfTwoMoves(start, Doc(0, row));
            && Trace(scope, start, trace) && MovedRehomed(Reached(start, trace), p.docs, {0})
            && LeftObjects(scope.window, start, Reached(start, trace)) == {row.path.value}
            && report.legacyObjectsRemaining == 0 && report.legacyRowsRemaining == 1
  {
    var start := State(map[row.path.value := content], map[0 := row, 1 := row], {0, 1});
    var trace := OneOfTwoMoves(start, Doc(0, row));
    RehomedFacts(row);
    OneOfTwoIsTrace(scope, start, row);
    assert Tables(start, trace, [2]) == [start.rows] by {
      assert trace[..2] == Called(start, []);
    }
    TwoDocs(scope.window, start.rows, row);
    TwoInOneGroup(p, row, report);
    var left := LeftObjects(scope.window, start, Reached(start, trace));
    forall key ensures key in left <==> key == row.path.value {
      assert 0 in start.rows && LegacyKey(start.rows[0]) == row.path;
    }
  }

  lemma OneOfTwoIsTrace(scope: Scope, start: State, row: Row)
    requires Candidate(row) && LayoutOk(scope.companies, row) && InWindow(scope.window, row) && row.hash == None
    requires start.rows == map[0 := row, 1 := row] && start.issued == {0, 1} && start.objects.Keys == {row.path.value}
    ensures var d := Doc(0, row);
            var trace := OneOfTwoMoves(start, d);
            && Trace(scope, start, trace)
            && Reached(start, trace) == WithCopy(start, d).(rows := map[0 := Rehomed(row)])
  {
    var d := Doc(0, row);
    RehomedFacts(row);
    CalledIsTrace(scope, start, []);
    CopyCallsTrace(scope, start, d, Called(start, []));
    hide Trace, Called, CopyCalls;
    var copied := CopyCalls(start, d, Called(start, []));
    var s := WithCopy(start, d);
    var moved := s.(rows := start.rows[0 := Rehomed(row)]);
    var alone := moved.(rows := map[0 := Rehomed(row)]);
    TraceGrows(scope, start, copied, Environment, s);
    TraceGrows(scope, start, copied + [Entry(Environment, s)], Repointed(d), moved);
    var repointed := copied + [Entry(Environment, s)] + [Entry(Repointed(d), moved)];
    assert EnvStep(scope.companies, moved, alone);
    TraceGrows(scope, start, repointed, Environment, alone);
    TraceGrows(scope, start, repointed + [Entry(Environment, alone)], Call(false), alone);
  }

  lemma TwoDocs(window: Option<string>, rows: map<nat, Row>, row: Row)
    requires rows == map[0 := row, 1 := row] && row.path.Some? && InWindow(window, row)
    ensures Read(window, [rows]) == [Doc(0, row), Doc(1, row)]
  {
    assert rows.Keys == Interval(0, 2);
    ListedInterval(window, rows, 0, 2);
    assert [rows][..0] == [];
  }

  lemma TwoInOneGroup(p: Plan, row: Row, report: Report)
    requires p.docs == [Doc(0, row), Doc(1, row)] && Candidate(row)
    requires Planned(p, None) && ReportFrom(report, p, {0})
    ensures report.legacyObjectsRemaining == 0 && report.legacyRowsRemaining == 1
  {
    TwoCandidates(p, row);
    ItemIdsCardinality(p.candidates);
    NothingToSweep(p);
    forall j | 0 <= j < |p.batch| ensures !(Ids(p.batch[j].docs) <= {0}) {
      BothInOneGroup(p, row, j);
    }
    assert FullKeys(p.batch, |p.batch|, {0}) == {};
  }

  lemma TwoCandidates(p: Plan, row: Row)
    requires p.docs == [Doc(0, row), Doc(1, row)] && Candidate(row) && CandidatesOf(p.candidates, p.docs)
    ensures Keyed(row.path.value, Doc(0, row)) in p.candidates && Keyed(row.path.value, Doc(1, row)) in p.candidates
    ensures DistinctItems(p.candidates) && ItemIds(p.candidates) == {0, 1}
  {
    assert p.docs[0] in p.docs && p.docs[1] in p.docs;
    assert Keyed(row.path.value, p.docs[0]).doc.id in ItemIds(p.candidates);
    assert Keyed(row.path.value, p.docs[1]).doc.id in ItemIds(p.candidates);
  }

  lemma BothInOneGroup(p: Plan, row: Row, j: nat)
    requires p.docs == [Doc(0, row), Doc(1, row)] && Candidate(row) && Planned(p, None) && j < |p.batch|
    ensures 1 in Ids(p.batch[j].docs)
  {
    TwoCandidates(p, row);
    assert p.batch == p.groups;
    var second := Keyed(row.path.value, Doc(1, row));
    var i :| 0 <= i < |p.groups| && p.groups[i].key == second.key && second.doc in p.groups[i].docs;
    assert Keyed(p.groups[j].key, p.groups[j].docs[0]) in p.candidates;
    assert p.groups[j].key == second.key;
  }

  lemma NothingToSweep(p: Plan)
    requires Planned(p, None) && forall d :: d in p.docs ==> !AlreadyScoped(d.row)
    ensures p.sweepGroups == []
  {
    forall it ensures it !in p.items {
      assert it in p.scoped ==> it.doc in p.docs;
    }
    GroupsNeedItems(p.sweepGroups, p.items);
  }

  // ----- a sweep that does not look at another company -----

  /** Two rows from one legacy key: that of the run's company with its copy, that of another without. */
  function TwoCompanies(mine: Row, theirs: Row, key: string, content: Bytes): State
    requires mine.path.Some?
  {
    State(map[key := content, mine.path.value := content], map[0 := mine, 1 := theirs], {0, 1})
  }

  /** Fetch, list the legacy key, download the copy, ask who is at the key, and remove it. */
  ghost function SweepCalls(start: State, key: string): seq<Entry> {
    Called(start, Called(start, Called(start, Called(start, []))))
    + [Entry(Environment, start)]
    + [Entry(SourceRemoved(key, 0, {0, 1}), start.(objects := start.objects - {key}))]
  }

  /**
   With `--company` the sweep verifies the copies of that company only. Every
   row of its group has a verified copy, no row points at the key, and the
   object goes that another company's row still needs.
   */
  lemma AWindowedSweepCanLoseAnObject(scope: Scope, mine: Row, theirs: Row, key: string, content: Bytes, p: Plan)
    requires scope.deleteSource && InWindow(scope.window, mine) && !InWindow(scope.window, theirs)
    requires AlreadyScoped(mine) && LegacyKey(mine) == Some(key) && Fits(mine, content, Sha256(content))
    requires AlreadyScoped(theirs) && LegacyKey(theirs) == Some(key)
    requires Layout(scope.companies, TwoCompanies(mine, theirs, key, content))
    requires var start := TwoCompanies(mine, theirs, key, content);
             p.docs == Read(scope.window, Tables(start, SweepCalls(start, key), [2])) && Planned(p, None)
    ensures var start, group := TwoCompanies(mine, theirs, key, content), PathGroup(key, [Doc(0, mine)]);
            var trace := SweepCalls(start, key);
            var s := Reached(start, trace);
            && p.sweepGroups == [group]
            && SweepGroupOk(scope, start, group) && VerifiedCopy(start, key, Doc(0, mine))
            && Trace(scope, start, trace) && 1 in s.rows && s.rows[1] == theirs
            && key !in s.objects && theirs.path.value !in s.objects
            && !AllHaveCopies(s, key, content) && OthersHaveCopies(s, key, content, {1})
  {
    var start := TwoCompanies(mine, theirs, key, content);
    SweepIsTrace(scope, start, mine, theirs, key, content);
    assert Tables(start, SweepCalls(start, key), [2]) == [start.rows] by {
      assert SweepCalls(start, key)[..2] == Called(start, []);
    }
    OneOfTwoDocs(scope.window, start.rows, mine, theirs);
    OneSweepGroup(p, mine, key);
  }

  lemma SweepIsTrace(scope: Scope, start: State, mine: Row, theirs: Row, key: string, content: Bytes)
    requires scope.deleteSource && InWindow(scope.window, mine) && !InWindow(scope.window, theirs)
    requires AlreadyScoped(mine) && LegacyKey(mine) == Some(key) && Fits(mine, content, Sha256(content))
    requires AlreadyScoped(theirs) && LegacyKey(theirs) == Some(key)
    requires start == TwoCompanies(mine, theirs, key, content) && Layout(scope.companies, start)
    ensures var group, s := PathGroup(key, [Doc(0, mine)]), Reached(start, SweepCalls(start, key));
            && SweepGroupOk(scope, start, group) && VerifiedCopy(start, key, Doc(0, mine))
            && Trace(scope, start, SweepCalls(start, key)) && s.rows == start.rows
            && key !in s.objects && theirs.path.value !in s.objects
            && !AllHaveCopies(s, key, content) && OthersHaveCopies(s, key, content, {1})
  {
    assert LayoutOk(scope.companies, start.rows[0]) && LayoutOk(scope.companies, start.rows[1]);
    if mine.path == theirs.path {
      OneCompanyPerPath(mine.path.value, mine.company.value, theirs.company.value);
    }
    SweepCallsTrace(scope, start, key);
  }

  lemma SweepCallsTrace(scope: Scope, start: State, key: string)
    requires Initial(start)
    requires Licensed(scope, start, start, SourceRemoved(key, 0, {0, 1}))
    ensures Trace(scope, start, SweepCalls(start, key))
    ensures Reached(start, SweepCalls(start, key)) == start.(objects := start.objects - {key})
  {
    CalledIsTrace(scope, start, []);
    hide Trace, Called, Licensed;
    var fetched := Called(start, []);
    var listed := Called(start, fetched);
    var read := Called(start, listed);
    var trace := Called(start, read);
    CalledIsTrace(scope, start, fetched);
    CalledIsTrace(scope, start, listed);
    CalledIsTrace(scope, start, read);
    TraceGrows(scope, start, trace, Environment, start);
    var s := start.(objects := start.objects - {key});
    TraceGrows(scope, start, trace + [Entry(Environment, start)], SourceRemoved(key, 0, {0, 1}), s);
  }

  lemma OneOfTwoDocs(window: Option<string>, rows: map<nat, Row>, mine: Row, theirs: Row)
    requires rows == map[0 := mine, 1 := theirs] && mine.path.Some?
    requires InWindow(window, mine) && !InWindow(window, theirs)
    ensures Read(window, [rows]) == [Doc(0, mine)]
  {
    assert ListedIds(window, rows) == Interval(0, 1);
    IntervalInOrder(0, 1);
    assert [rows][..0] == [];
  }

  lemma OneSweepGroup(p: Plan, mine: Row, key: string)
    requires p.docs == [Doc(0, mine)] && AlreadyScoped(mine) && LegacyKey(mine) == Some(key) && Planned(p, None)
    ensures p.sweepGroups == [PathGroup(key, [Doc(0, mine)])]
  {
    var only := Keyed(key, Doc(0, mine));
    assert p.docs[0] in p.docs;
    GroupsNeedItems(p.groups, p.candidates);
    assert only in p.items;
    var i :| 0 <= i < |p.sweepGroups| && p.sweepGroups[i].key == key && only.doc in p.sweepGroups[i].docs;
    forall j, d | 0 <= j < |p.sweepGroups| && d in p.sweepGroups[j].docs
      ensures p.sweepGroups[j].key == key && d == only.doc
    {
      assert Keyed(p.sweepGroups[j].key, d) in p.items;
    }
    forall j | 0 <= j < |p.sweepGroups| ensures p.sweepGroups[j].key == key && j == i {
      assert p.sweepGroups[j].docs[0] in p.sweepGroups[j].docs;
    }
    var last := |p.sweepGroups| - 1;
    assert p.sweepGroups[0].key == p.sweepGroups[last].key && last == 0;
    OneDoc(p.sweepGroups[0].docs, only.doc);
  }

  lemma OneDoc(docs: seq<Doc>, d: Doc)
    requires DistinctIds(docs) && d in docs && forall e :: e in docs ==> e == d
    ensures docs == [d]
  {
    IdsCardinality(docs);
    assert Ids(docs) == {d.id};
    assert docs[0] in docs;
  }
}
