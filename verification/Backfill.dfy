/**
 A whole backfill run: fetch, classify, group by source key, migrate a batch,
 sweep, and report whether the legacy policies may be dropped.
 */
module Backfill {
  import opened Prelude
  import opened StoragePaths
  import opened DocumentStore
  import opened MigrationLaws
  import opened RemovalLaws
  import opened RemoteStore
  import opened Paging
  import opened BackfillGroup
  import opened SweepLegacy

  // ----- grouping rows by key -----

  datatype Keyed = Keyed(key: string, doc: Doc)

  /** Every item is in the group of its key, and in no other. */
  ghost predicate GroupsOf(groups: seq<PathGroup>, items: seq<Keyed>) {
    && (forall i, j :: 0 <= i < j < |groups| ==> groups[i].key != groups[j].key)
    && (forall i :: 0 <= i < |groups| ==> groups[i].docs != [] && DistinctIds(groups[i].docs))
    && (forall i, d :: 0 <= i < |groups| && d in groups[i].docs ==> Keyed(groups[i].key, d) in items)
    && (forall it :: it in items ==>
       exists i :: 0 <= i < |groups| && groups[i].key == it.key && it.doc in groups[i].docs)
  }

  ghost predicate DistinctItems(items: seq<Keyed>) {
    forall i, j :: 0 <= i < j < |items| ==> items[i].doc.id != items[j].doc.id
  }

  /** The insertion-ordered map a `Map<string, DocumentRow[]>` is. */
  ghost predicate Lists(order: seq<string>, lists: map<string, seq<Doc>>, items: seq<Keyed>) {
    && Distinct(order)
    && (forall key :: key in order <==> key in lists)
    && (forall key :: key in lists ==> lists[key] != [] && DistinctIds(lists[key]))
    && (forall key, d :: key in lists && d in lists[key] ==> Keyed(key, d) in items)
    && (forall it :: it in items ==> it.key in lists && it.doc in lists[it.key])
  }

  lemma ListsExtend(order: seq<string>, lists: map<string, seq<Doc>>, items: seq<Keyed>, it: Keyed)
    requires Lists(order, lists, items)
    requires forall other :: other in items ==> other.doc.id != it.doc.id
    ensures Lists(if it.key in lists then order else order + [it.key],
                  lists[it.key := (if it.key in lists then lists[it.key] else []) + [it.doc]], items + [it])
  {
    var before := if it.key in lists then lists[it.key] else [];
    forall d | d in before ensures d.id != it.doc.id {
      assert Keyed(it.key, d) in items;
    }
  }

  method GroupByKey(items: seq<Keyed>) returns (groups: seq<PathGroup>)
    requires DistinctItems(items)
    ensures GroupsOf(groups, items)
  {
    var order: seq<string> := [];
    var lists: map<string, seq<Doc>> := map[];
    for i := 0 to |items|
      invariant Lists(order, lists, items[..i])
    {
      var it := items[i];
      ListsExtend(order, lists, items[..i], it);
      assert items[..i + 1] == items[..i] + [it];
      if it.key in lists {
        lists := lists[it.key := lists[it.key] + [it.doc]];
      } else {
        order := order + [it.key];
        lists := lists[it.key := [it.doc]];
      }
    }
    assert items[..|items|] == items;
    assert forall key :: key in order ==> key in lists;
    groups := seq(|order|, k requires 0 <= k < |order| && order[k] in lists => PathGroup(order[k], lists[order[k]]));
    forall it | it in items
      ensures exists i :: 0 <= i < |groups| && groups[i].key == it.key && it.doc in groups[i].docs
    {
      var k :| 0 <= k < |order| && order[k] == it.key;
      assert groups[k].key == it.key;
    }
  }

  lemma GroupsNeedItems(groups: seq<PathGroup>, items: seq<Keyed>)
    requires GroupsOf(groups, items)
    ensures groups != [] ==> exists it :: it in items
  {
    if groups != [] {
      assert groups[0].docs[0] in groups[0].docs;
      assert Keyed(groups[0].key, groups[0].docs[0]) in items;
    }
  }

  // ----- classification -----

  /** Split the fetched rows into those to migrate and those already at home. */
  method Classify(docs: seq<Doc>) returns (candidates: seq<Keyed>, scoped: seq<Keyed>)
    requires DistinctIds(docs)
    ensures DistinctItems(candidates) && DistinctItems(scoped)
    ensures forall it :: it in candidates <==>
              it.doc in docs && Candidate(it.doc.row) && it.doc.row.path == Some(it.key)
    ensures forall it :: it in scoped <==>
              it.doc in docs && AlreadyScoped(it.doc.row) && LegacyKey(it.doc.row) == Some(it.key)
    // by their texts: `documents/{rest}` of another shape, and `documents/{company}/{rest}`
    ensures forall it :: it in candidates <==>
              && it.doc in docs && it.doc.row.company.Some? && it.doc.row.path == Some(it.key)
              && "documents/" <= it.key && !("documents/" + it.doc.row.company.value + "/" <= it.key)
    ensures forall it :: it in scoped <==>
              && it.doc in docs && it.doc.row.company.Some? && "documents/" <= it.key
              && it.doc.row.path == Some("documents/" + it.doc.row.company.value + "/" + it.key[10..])
  {
    hide IsCompanyScoped, IsDocumentPath, LegacyPathFor;
    candidates, scoped := [], [];
    for i := 0 to |docs|
      invariant DistinctItems(candidates) && DistinctItems(scoped)
      invariant forall it :: it in candidates <==>
                  it.doc in docs[..i] && Candidate(it.doc.row) && it.doc.row.path == Some(it.key)
      invariant forall it :: it in scoped <==>
                  it.doc in docs[..i] && AlreadyScoped(it.doc.row) && LegacyKey(it.doc.row) == Some(it.key)
    {
      var d := docs[i];
      assert docs[..i + 1] == docs[..i] + [d];
      if AlreadyScoped(d.row) {
        ScopedHasLegacy(d.row);
        scoped := scoped + [Keyed(LegacyKey(d.row).value, d)];
      } else if Candidate(d.row) {
        candidates := candidates + [Keyed(d.row.path.value, d)];
      }
    }
    assert docs[..|docs|] == docs;
    ClassifiedByText(docs, candidates, scoped);
  }

  lemma ClassifiedByText(docs: seq<Doc>, candidates: seq<Keyed>, scoped: seq<Keyed>)
    requires forall it :: it in candidates <==>
               it.doc in docs && Candidate(it.doc.row) && it.doc.row.path == Some(it.key)
    requires forall it :: it in scoped <==>
               it.doc in docs && AlreadyScoped(it.doc.row) && LegacyKey(it.doc.row) == Some(it.key)
    ensures forall it :: it in candidates <==>
              && it.doc in docs && it.doc.row.company.Some? && it.doc.row.path == Some(it.key)
              && "documents/" <= it.key && !("documents/" + it.doc.row.company.value + "/" <= it.key)
    ensures forall it :: it in scoped <==>
              && it.doc in docs && it.doc.row.company.Some? && "documents/" <= it.key
              && it.doc.row.path == Some("documents/" + it.doc.row.company.value + "/" + it.key[10..])
  {
    hide Candidate, AlreadyScoped, LegacyKey;
    forall it: Keyed
      ensures it in candidates <==>
                && it.doc in docs && it.doc.row.company.Some? && it.doc.row.path == Some(it.key)
                && "documents/" <= it.key && !("documents/" + it.doc.row.company.value + "/" <= it.key)
      ensures it in scoped <==>
                && it.doc in docs && it.doc.row.company.Some? && "documents/" <= it.key
                && it.doc.row.path == Some("documents/" + it.doc.row.company.value + "/" + it.key[10..])
    {
      ShapeOf(it.doc.row, it.key);
    }
  }

  /** The two kinds of rows and their legacy keys, by the texts. */
  lemma ShapeOf(row: Row, key: string)
    ensures Candidate(row) && row.path == Some(key) <==>
              && row.company.Some? && row.path == Some(key)
              && "documents/" <= key && !("documents/" + row.company.value + "/" <= key)
    ensures AlreadyScoped(row) && LegacyKey(row) == Some(key) <==>
              && row.company.Some? && "documents/" <= key
              && row.path == Some("documents/" + row.company.value + "/" + key[10..])
  {
    if row.company.Some? {
      var prefix := "documents/" + row.company.value + "/";
      if AlreadyScoped(row) {
        var path := row.path.value;
        assert path == prefix + path[|prefix|..];
        assert ("documents/" + path[|prefix|..])[10..] == path[|prefix|..];
      }
      if "documents/" <= key && row.path == Some(prefix + key[10..]) {
        assert (prefix + key[10..])[|prefix|..] == key[10..];
        assert key == "documents/" + key[10..];
      }
    }
  }

  lemma ScopedHasLegacy(row: Row)
    requires AlreadyScoped(row)
    ensures LegacyPathFor(row.path.value, row.company.value).Some?
  {
  }

  // ----- the batch -----

  ghost predicate BatchOk(scope: Scope, s: State, batch: seq<PathGroup>, from: nat) {
    && (forall i, j :: 0 <= i < j < |batch| ==>
       batch[i].key != batch[j].key && Ids(batch[i].docs) !! Ids(batch[j].docs))
    && (forall i :: from <= i < |batch| ==> GroupOk(scope, s, batch[i].key, batch[i].docs))
    && (forall i :: 0 <= i < |batch| ==> GroupTracked(scope, s, batch[i]))
  }

  ghost predicate GroupTracked(scope: Scope, s: State, g: PathGroup) {
    g.docs != [] && forall d :: d in g.docs ==> AtSource(scope, g.key, d) && Tracked(s, d)
  }

  ghost function BatchIds(batch: seq<PathGroup>, n: nat): set<nat> {
    set i, d | 0 <= i < n && i < |batch| && d in batch[i].docs :: d.id
  }

  ghost predicate BatchLaidOut(companies: set<string>, batch: seq<PathGroup>) {
    forall i :: 0 <= i < |batch| ==> LaidOut(companies, batch[i].docs)
  }

  ghost predicate GroupsPromised(scope: Scope, start: State, groups: seq<PathGroup>) {
    forall g :: g in groups ==> AllPromised(scope, start, g.docs)
  }

  ghost predicate IsBatchKey(batch: seq<PathGroup>, key: string) {
    exists j :: 0 <= j < |batch| && batch[j].key == key
  }

  /** Only objects at source keys of the batch went, or changed, and new ones are at its targets. */
  ghost predicate OthersStay(s0: State, s: State, batch: seq<PathGroup>) {
    && (forall key :: key in s0.objects && !IsBatchKey(batch, key) ==>
          key in s.objects && s.objects[key] == s0.objects[key])
    && (forall key :: key in s.objects && key !in s0.objects ==> IsTargetKey(batch, key))
  }

  ghost predicate IsTargetKey(batch: seq<PathGroup>, key: string) {
    exists j :: 0 <= j < |batch| && key in TargetKeys(batch[j].docs)
  }

  /** The sources from the `n`th group on are where they were, and those removed so far are counted. */
  ghost predicate Removals(s0: State, s: State, batch: seq<PathGroup>, n: nat, removed: nat, faultless: bool) {
    && (forall j :: n <= j < |batch| ==> (batch[j].key in s.objects <==> batch[j].key in s0.objects))
    && removed <= |s0.objects.Keys - s.objects.Keys|
    && (faultless ==> removed == |s0.objects.Keys - s.objects.Keys|)
  }

  lemma RemovalsExtend(scope: Scope, s0: State, s: State, s': State, batch: seq<PathGroup>, n: nat, removed: nat,
                       faultless: bool, faultless': bool, more: nat)
    requires n < |batch| && BatchOk(scope, s, batch, n) && BatchLaidOut(scope.companies, batch)
    requires OthersStay(s0, s, batch) && Removals(s0, s, batch, n, removed, faultless) && (faultless' ==> faultless)
    requires GroupFrame(scope.companies, s, s', batch[n].key, batch[n].docs)
    requires more <= (if batch[n].key in s.objects && batch[n].key !in s'.objects then 1 else 0)
    requires faultless' ==> more == (if batch[n].key in s.objects && batch[n].key !in s'.objects then 1 else 0)
    ensures Removals(s0, s', batch, n + 1, removed + more, faultless')
  {
    hide OthersStay, GroupFrame, BatchOk, BatchLaidOut;
    forall j | 0 <= j < |batch| && batch[j].key !in s.objects ensures batch[j].key !in s'.objects {
      SourceStaysEmpty(scope, s, s', batch, n, j);
    }
    OnlySourceGoes(scope, s0, s, s', batch, n);
    LaterSources(scope, s0, s, s', batch, n);
    GoneInAll(s0.objects.Keys, s.objects.Keys, s'.objects.Keys, batch[n].key);
  }

  lemma LaterSources(scope: Scope, s0: State, s: State, s': State, batch: seq<PathGroup>, n: nat)
    requires n < |batch| && BatchOk(scope, s, batch, n)
    requires GroupFrame(scope.companies, s, s', batch[n].key, batch[n].docs)
    requires forall j :: n <= j < |batch| ==> (batch[j].key in s.objects <==> batch[j].key in s0.objects)
    requires forall j :: 0 <= j < |batch| && batch[j].key !in s.objects ==> batch[j].key !in s'.objects
    ensures forall j :: n + 1 <= j < |batch| ==> (batch[j].key in s'.objects <==> batch[j].key in s0.objects)
  {
    forall j | n + 1 <= j < |batch| ensures batch[j].key in s'.objects <==> batch[j].key in s0.objects {
      assert batch[j].key != batch[n].key;
    }
  }

  lemma OnlySourceGoes(scope: Scope, s0: State, s: State, s': State, batch: seq<PathGroup>, n: nat)
    requires n < |batch| && OthersStay(s0, s, batch)
    requires GroupFrame(scope.companies, s, s', batch[n].key, batch[n].docs)
    requires batch[n].key in s.objects <==> batch[n].key in s0.objects
    requires forall j :: 0 <= j < |batch| && batch[j].key !in s.objects ==> batch[j].key !in s'.objects
    ensures var all, key := s0.objects.Keys, batch[n].key;
            && all * s'.objects.Keys == all * s.objects.Keys - (if key in s'.objects then {} else {key})
            && (key in all <==> key in s.objects)
            && (key in s'.objects ==> key in s.objects)
  {
    forall key | key in s0.objects && key !in s.objects ensures key !in s'.objects {
      assert IsBatchKey(batch, key);
    }
  }

  lemma GoneInAll(all: set<string>, left: set<string>, left': set<string>, key: string)
    requires all * left' == all * left - (if key in left' then {} else {key})
    requires (key in all <==> key in left) && (key in left' ==> key in left)
    ensures |all - left'| == |all - left| + (if key in left && key !in left' then 1 else 0)
  {
    GoneGrow(all, all * left, all * left', key);
    assert all - all * left == all - left && all - all * left' == all - left';
  }

  /** What the counters say about the sources of a laid out batch. */
  ghost predicate SourcesTallied(scope: Scope, s0: State, s: State, batch: seq<PathGroup>, n: nat, moved: set<nat>,
                                 kept: nat, removed: nat, faultless: bool) {
    BatchLaidOut(scope.companies, batch) ==>
      |KeptKeys(s, batch, n, moved)| <= kept && Removals(s0, s, batch, n, removed, faultless)
  }

  lemma SourcesTalliedExtend(scope: Scope, s0: State, s: State, s': State, batch: seq<PathGroup>, n: nat,
                             moved: set<nat>, more: set<nat>, kept: nat, removed: nat, faultless: bool,
                             faultless': bool, keptHere: nat, removedHere: nat)
    requires n < |batch| && BatchOk(scope, s, batch, n) && OthersStay(s0, s, batch) && (faultless' ==> faultless)
    requires SourcesTallied(scope, s0, s, batch, n, moved, kept, removed, faultless)
    requires GroupFrame(scope.companies, s, s', batch[n].key, batch[n].docs)
    requires moved <= BatchIds(batch, n) && more <= Ids(batch[n].docs)
    requires Ids(batch[n].docs) <= more && batch[n].key in s'.objects ==> keptHere == 1
    requires removedHere <= (if batch[n].key in s.objects && batch[n].key !in s'.objects then 1 else 0)
    requires faultless' && batch[n].key in s.objects && batch[n].key !in s'.objects ==> removedHere == 1
    ensures SourcesTallied(scope, s0, s', batch, n + 1, moved + more, kept + keptHere, removed + removedHere,
                           faultless')
  {
    hide BatchOk, OthersStay, GroupFrame, BatchLaidOut, KeptKeys, Removals, Ids, BatchIds;
    if BatchLaidOut(scope.companies, batch) {
      KeptExtends(scope, s, s', batch, n, moved, more);
      RemovalsExtend(scope, s0, s, s', batch, n, removed, faultless, faultless', removedHere);
    }
  }

  lemma OthersStillThere(scope: Scope, s0: State, s: State, s': State, batch: seq<PathGroup>, i: nat)
    requires i < |batch| && OthersStay(s0, s, batch)
    requires GroupFrame(scope.companies, s, s', batch[i].key, batch[i].docs)
    ensures OthersStay(s0, s', batch)
  {
    forall key | key in s'.objects && key !in s0.objects ensures IsTargetKey(batch, key) {
      if key !in s.objects {
        assert key in TargetKeys(batch[i].docs);
      }
    }
  }

  lemma BatchOkKept(scope: Scope, s: State, s': State, batch: seq<PathGroup>, i: nat)
    requires i < |batch| && BatchOk(scope, s, batch, i)
    requires GroupFrame(scope.companies, s, s', batch[i].key, batch[i].docs)
    ensures BatchOk(scope, s', batch, i + 1)
  {
    assert GroupTracked(scope, s, batch[i]);
    forall j | 0 <= j < |batch| && j != i
      ensures GroupTracked(scope, s', batch[j])
      ensures j > i ==> GroupOk(scope, s', batch[j].key, batch[j].docs)
    {
      assert GroupTracked(scope, s, batch[j]);
      assert Ids(batch[j].docs) !! Ids(batch[i].docs);
      assert forall d :: d in batch[j].docs ==> d.id in Ids(batch[j].docs);
    }
  }

  /** An emptied source stays empty: later groups only create company-scoped keys. */
  lemma SourceStaysEmpty(scope: Scope, s: State, s': State, batch: seq<PathGroup>, i: nat, j: nat)
    requires j < |batch| && i < |batch| && BatchOk(scope, s, batch, i) && BatchLaidOut(scope.companies, batch)
    requires GroupFrame(scope.companies, s, s', batch[i].key, batch[i].docs)
    requires batch[j].key !in s.objects
    ensures batch[j].key !in s'.objects
  {
    var e := batch[j].docs[0];
    assert GroupTracked(scope, s, batch[j]) && GroupTracked(scope, s, batch[i]);
    assert e in batch[j].docs && LayoutOk(scope.companies, e.row);
    RehomedFacts(e.row);
    assert UploaderScoped(scope.companies, batch[j].key);
    forall d | d in batch[i].docs
      ensures Target(d.row) != batch[j].key
    {
      RehomedFacts(d.row);
      assert LayoutOk(scope.companies, d.row);
    }
  }

  lemma GroupSettledKept(scope: Scope, start: State, s: State, s': State, batch: seq<PathGroup>, i: nat, j: nat)
    requires j < i < |batch| && BatchOk(scope, s, batch, i) && OnCourse(scope, start, s)
    requires GroupFrame(scope.companies, s, s', batch[i].key, batch[i].docs) && s'.rows.Keys == s.rows.Keys
    requires GroupSettled(scope, s, batch[j].key, batch[j].docs)
    ensures GroupSettled(scope, s', batch[j].key, batch[j].docs)
  {
    var key, docs := batch[j].key, batch[j].docs;
    assert GroupTracked(scope, s, batch[j]) && GroupTracked(scope, s, batch[i]);
    forall d, other | d in batch[i].docs && other in s.rows
      ensures LegacyKey(s.rows[other]) != Some(Target(d.row))
    {
      assert Known(s, d);
      TargetIsNoLegacyKey(scope, s, d.id, other);
    }
    forall d | d in docs
      ensures !Movable(scope.window, s', d.id)
    {
      assert d.id in Ids(docs) && d.id !in Ids(batch[i].docs);
      assert Tracked(s, d) && !Movable(scope.window, s, d.id);
      RehomedFacts(d.row);
      var e := batch[i].docs[0];
      assert e in batch[i].docs && Known(s, e);
      RehomedFacts(e.row);
      if d.id in s'.rows && Candidate(s'.rows[d.id]) {
        assert s'.rows[d.id] == s.rows[d.id] == d.row;
        TargetIsNoLegacyKey(scope, s, d.id, e.id);
        assert LegacyKey(s.rows[d.id]) == Some(key);
      }
    }
    if scope.deleteSource && key in s'.objects {
      KeyStaysReferenced(scope, start, s, s', batch, i, j);
    }
  }

  lemma KeyStaysReferenced(scope: Scope, start: State, s: State, s': State, batch: seq<PathGroup>, i: nat, j: nat)
    requires j < i < |batch| && BatchOk(scope, s, batch, i) && OnCourse(scope, start, s)
    requires GroupFrame(scope.companies, s, s', batch[i].key, batch[i].docs) && s'.rows.Keys == s.rows.Keys
    requires scope.deleteSource && batch[j].key in s'.objects
    requires GroupSettled(scope, s, batch[j].key, batch[j].docs)
    ensures Referenced(s', batch[j].key)
  {
    var key := batch[j].key;
    var f := batch[j].docs[0];
    assert GroupTracked(scope, s, batch[j]) && GroupTracked(scope, s, batch[i]);
    assert f in batch[j].docs && Tracked(s, f);
    RehomedFacts(f.row);
    forall d | d in batch[i].docs
      ensures Target(d.row) != key
    {
      assert Known(s, d);
      TargetIsNoLegacyKey(scope, s, d.id, f.id);
    }
    var id :| RowAt(s, id, key);
    forall d | d in batch[i].docs ensures d.id != id {
      assert Known(s, d);
    }
    assert RowAt(s', id, key);
  }

  /** Each row of the first `n` groups was migrated or is reported, and never both. */
  ghost predicate BatchAccounted(batch: seq<PathGroup>, n: nat, moved: set<nat>, failures: seq<Failure>) {
    && (forall j :: 0 <= j < n && j < |batch| ==> Accounted(batch[j].docs, failures, moved))
    && (forall k :: 0 <= k < |failures| ==> failures[k].documentId in BatchIds(batch, n))
  }

  /** No row of the groups is passed over in silence. */
  ghost predicate NoneIsSilent(groups: seq<PathGroup>, moved: set<nat>, failures: seq<Failure>) {
    forall j, d :: 0 <= j < |groups| && d in groups[j].docs ==> d.id in moved || Reported(failures, 0, d.id)
  }

  lemma MoreReports(scope: Scope, s0: State, s: State, groups: seq<PathGroup>, moved: set<nat>,
                    failures: seq<Failure>, more: seq<Failure>)
    requires Handled(scope, s0, s, groups, |groups|, moved, failures)
    ensures NoneIsSilent(groups, moved, failures + more)
  {
    forall j, d | 0 <= j < |groups| && d in groups[j].docs && d.id !in moved
      ensures Reported(failures + more, 0, d.id)
    {
      assert Accounted(groups[j].docs, failures, moved);
      ReportedGrows(failures, more, 0, d.id);
    }
  }

  /** The rows of the first `n` groups: those in `moved` were migrated. */
  ghost predicate Handled(scope: Scope, s0: State, s: State, batch: seq<PathGroup>, n: nat, moved: set<nat>,
                          failures: seq<Failure>) {
    && RowsByOthers(scope.companies, s0, s, BatchIds(batch, |batch|))
    && moved <= BatchIds(batch, n)
    && (forall j :: 0 <= j < n && j < |batch| ==> MovedRehomed(s, batch[j].docs, moved))
    && BatchAccounted(batch, n, moved, failures)
  }

  lemma MovedDisjoint(scope: Scope, s: State, batch: seq<PathGroup>, n: nat, moved: set<nat>, more: set<nat>)
    requires n < |batch| && BatchOk(scope, s, batch, n) && moved <= BatchIds(batch, n) && more <= Ids(batch[n].docs)
    ensures moved !! Ids(batch[n].docs) && |moved + more| == |moved| + |more|
    ensures moved + more <= BatchIds(batch, n + 1)
    ensures Ids(batch[n].docs) <= BatchIds(batch, |batch|)
  {
    assert forall j :: 0 <= j < n ==> Ids(batch[j].docs) !! Ids(batch[n].docs);
    GroupWithin(batch, n);
    hide BatchOk, GroupTracked, DistinctIds, Ids, BatchIds;
    forall id | id in moved ensures id !in Ids(batch[n].docs) {
      var j := GroupOfId(batch, n, id);
    }
  }

  lemma GroupOfId(batch: seq<PathGroup>, n: nat, id: nat) returns (j: nat)
    requires id in BatchIds(batch, n)
    ensures j < n && j < |batch| && id in Ids(batch[j].docs)
  {
    var d;
    j, d :| 0 <= j < n && j < |batch| && d in batch[j].docs && d.id == id;
  }

  lemma GroupWithin(batch: seq<PathGroup>, n: nat)
    requires n < |batch|
    ensures BatchIds(batch, n) <= BatchIds(batch, n + 1)
    ensures Ids(batch[n].docs) <= BatchIds(batch, n + 1) && Ids(batch[n].docs) <= BatchIds(batch, |batch|)
  {
  }

  lemma RehomedKept(scope: Scope, s: State, s': State, batch: seq<PathGroup>, n: nat, j: nat, moved: set<nat>,
                    more: set<nat>)
    requires j < n < |batch| && BatchOk(scope, s, batch, n)
    requires GroupFrame(scope.companies, s, s', batch[n].key, batch[n].docs)
    requires MovedRehomed(s, batch[j].docs, moved) && more <= Ids(batch[n].docs)
    ensures MovedRehomed(s', batch[j].docs, moved + more)
  {
    assert GroupTracked(scope, s, batch[j]);
    assert Ids(batch[j].docs) !! Ids(batch[n].docs);
    forall d | d in batch[j].docs
      ensures d.id !in more
      ensures d.id in s'.rows ==> d.id in s.rows && s'.rows[d.id] == s.rows[d.id]
    {
      assert d.id in Ids(batch[j].docs) && Tracked(s, d);
    }
  }

  lemma FrameWidens(companies: set<string>, s0: State, s: State, s': State, key: string, docs: seq<Doc>, ids: set<nat>)
    requires GroupFrame(companies, s, s', key, docs) && RowsByOthers(companies, s0, s, ids) && Ids(docs) <= ids
    ensures RowsByOthers(companies, s0, s', ids)
  {
    assert RowsByOthers(companies, s, s', ids);
    RowsByOthersTransitive(companies, s0, s, s', ids);
  }

  lemma MoreRehomed(s: State, docs: seq<Doc>, moved: set<nat>, more: set<nat>)
    requires MovedRehomed(s, docs, more) && moved !! Ids(docs)
    ensures MovedRehomed(s, docs, moved + more)
  {
    forall d | d in docs ensures d.id !in moved {
      assert d.id in Ids(docs);
    }
  }

  lemma HandledExtends(scope: Scope, s0: State, s: State, s': State, batch: seq<PathGroup>, n: nat, moved: set<nat>,
                       failures: seq<Failure>, more: set<nat>, reports: seq<Failure>)
    requires n < |batch| && BatchOk(scope, s, batch, n) && Handled(scope, s0, s, batch, n, moved, failures)
    requires GroupFrame(scope.companies, s, s', batch[n].key, batch[n].docs)
    requires more <= Ids(batch[n].docs) && MovedRehomed(s', batch[n].docs, more)
    requires Accounted(batch[n].docs, reports, more) && FiledFor(reports, batch[n].docs, batch[n].key)
    ensures Handled(scope, s0, s', batch, n + 1, moved + more, failures + reports)
    ensures |moved + more| == |moved| + |more|
  {
    AllAccounted(scope, s, batch, n, moved, failures, more, reports);
    hide BatchOk, GroupFrame, RowsByOthers, BatchIds, BatchAccounted, Accounted, FiledFor;
    MovedDisjoint(scope, s, batch, n, moved, more);
    FrameWidens(scope.companies, s0, s, s', batch[n].key, batch[n].docs, BatchIds(batch, |batch|));
    forall j | 0 <= j < n
      ensures MovedRehomed(s', batch[j].docs, moved + more)
    {
      RehomedKept(scope, s, s', batch, n, j, moved, more);
    }
    MoreRehomed(s', batch[n].docs, moved, more);
  }

  lemma StillAccounted(docs: seq<Doc>, failures: seq<Failure>, moved: set<nat>, more: set<nat>, reports: seq<Failure>)
    requires Accounted(docs, failures, moved) && more !! Ids(docs)
    requires forall k :: 0 <= k < |reports| ==> reports[k].documentId !in Ids(docs)
    ensures Accounted(docs, failures + reports, moved + more)
  {
    forall d | d in docs ensures Reported(failures + reports, 0, d.id) <==> d.id !in moved + more {
      assert d.id in Ids(docs);
      ReportedGrows(failures, reports, 0, d.id);
    }
  }

  lemma NowAccounted(docs: seq<Doc>, failures: seq<Failure>, moved: set<nat>, more: set<nat>, reports: seq<Failure>)
    requires Accounted(docs, reports, more) && moved !! Ids(docs)
    requires forall k :: 0 <= k < |failures| ==> failures[k].documentId !in Ids(docs)
    ensures Accounted(docs, failures + reports, moved + more)
  {
    forall d | d in docs ensures Reported(failures + reports, 0, d.id) <==> d.id !in moved + more {
      assert d.id in Ids(docs);
      ReportedGrows(failures, reports, 0, d.id);
    }
  }

  lemma EarlierWithin(batch: seq<PathGroup>, n: nat, j: nat)
    requires j < n <= |batch|
    ensures Ids(batch[j].docs) <= BatchIds(batch, n)
  {
  }

  /** The groups share no row, so what one reports and migrates says nothing of the others. */
  lemma AllAccounted(scope: Scope, s: State, batch: seq<PathGroup>, n: nat, moved: set<nat>, failures: seq<Failure>,
                     more: set<nat>, reports: seq<Failure>)
    requires n < |batch| && BatchOk(scope, s, batch, n) && moved <= BatchIds(batch, n)
    requires BatchAccounted(batch, n, moved, failures)
    requires more <= Ids(batch[n].docs)
    requires Accounted(batch[n].docs, reports, more) && FiledFor(reports, batch[n].docs, batch[n].key)
    ensures BatchAccounted(batch, n + 1, moved + more, failures + reports)
  {
    hide BatchOk, BatchIds, BatchAccounted, Ids, Accounted, FiledFor;
    MovedDisjoint(scope, s, batch, n, BatchIds(batch, n), Ids(batch[n].docs));
    AccountedTogether(batch, n, moved, failures, more, reports);
  }

  lemma AccountedTogether(batch: seq<PathGroup>, n: nat, moved: set<nat>, failures: seq<Failure>, more: set<nat>,
                          reports: seq<Failure>)
    requires n < |batch| && moved <= BatchIds(batch, n) && BatchIds(batch, n) !! Ids(batch[n].docs)
    requires BatchAccounted(batch, n, moved, failures)
    requires more <= Ids(batch[n].docs)
    requires Accounted(batch[n].docs, reports, more) && FiledFor(reports, batch[n].docs, batch[n].key)
    ensures BatchAccounted(batch, n + 1, moved + more, failures + reports)
  {
    hide BatchIds, Ids, Accounted;
    GroupWithin(batch, n);
    forall j | 0 <= j < n ensures Accounted(batch[j].docs, failures + reports, moved + more) {
      EarlierWithin(batch, n, j);
      StillAccounted(batch[j].docs, failures, moved, more, reports);
    }
    NowAccounted(batch[n].docs, failures, moved, more, reports);
  }

  /** No row of the first `n` groups was moved without being counted. */
  ghost predicate BatchUnmoved(s: State, batch: seq<PathGroup>, n: nat, moved: set<nat>) {
    forall j :: 0 <= j < n && j < |batch| ==> UnmovedStay(s, batch[j].docs, moved)
  }

  lemma UnmovedKept(scope: Scope, s: State, s': State, batch: seq<PathGroup>, n: nat, moved: set<nat>, more: set<nat>)
    requires n < |batch| && BatchOk(scope, s, batch, n) && BatchUnmoved(s, batch, n, moved)
    requires GroupFrame(scope.companies, s, s', batch[n].key, batch[n].docs)
    requires UnmovedStay(s', batch[n].docs, more)
    ensures BatchUnmoved(s', batch, n + 1, moved + more)
  {
    forall j | 0 <= j < n + 1 ensures UnmovedStay(s', batch[j].docs, moved + more) {
      if j < n {
        assert Ids(batch[j].docs) !! Ids(batch[n].docs);
        forall d | d in batch[j].docs
          ensures d.id in s'.issued && (d.id !in moved && d.id in s'.rows ==> s'.rows[d.id] == d.row)
        {
          assert d.id in Ids(batch[j].docs);
        }
      }
    }
  }

  lemma BatchUnmovedLater(companies: set<string>, s: State, s': State, batch: seq<PathGroup>, moved: set<nat>)
    requires BatchUnmoved(s, batch, |batch|, moved) && RowsByOthers(companies, s, s', {})
    ensures BatchUnmoved(s', batch, |batch|, moved)
  {
    forall j | 0 <= j < |batch| ensures UnmovedStay(s', batch[j].docs, moved) {
      UnmovedLater(companies, s, s', batch[j].docs, moved);
    }
  }

  /** The sources of the first `n` groups that are still there though every row of the group was migrated. */
  ghost function KeptKeys(s: State, batch: seq<PathGroup>, n: nat, moved: set<nat>): set<string> {
    set j | 0 <= j < n && j < |batch| && Ids(batch[j].docs) <= moved && batch[j].key in s.objects :: batch[j].key
  }

  /** The sources of the first `n` groups whose rows were all migrated. */
  ghost function FullKeys(batch: seq<PathGroup>, n: nat, moved: set<nat>): set<string> {
    set j | 0 <= j < n && j < |batch| && Ids(batch[j].docs) <= moved :: batch[j].key
  }

  lemma FullExtends(scope: Scope, s: State, batch: seq<PathGroup>, n: nat, moved: set<nat>, more: set<nat>)
    requires n < |batch| && BatchOk(scope, s, batch, n)
    requires moved <= BatchIds(batch, n) && more <= Ids(batch[n].docs)
    ensures |FullKeys(batch, n, moved)| + (if Ids(batch[n].docs) <= more then 1 else 0)
            <= |FullKeys(batch, n + 1, moved + more)|
  {
    assert forall j :: 0 <= j < n ==> batch[j].key != batch[n].key;
    hide BatchOk, Ids;
    var before, after := FullKeys(batch, n, moved), FullKeys(batch, n + 1, moved + more);
    if Ids(batch[n].docs) <= more {
      assert before + {batch[n].key} <= after;
      SubsetSize(before + {batch[n].key}, after);
    } else {
      SubsetSize(before, after);
    }
  }

  ghost predicate AllSettled(scope: Scope, s: State, batch: seq<PathGroup>, n: nat) {
    forall j :: 0 <= j < n && j < |batch| ==> GroupSettled(scope, s, batch[j].key, batch[j].docs)
  }

  ghost predicate NothingMovable(scope: Scope, s: State, batch: seq<PathGroup>) {
    forall j, d :: 0 <= j < |batch| && d in batch[j].docs ==> !Movable(scope.window, s, d.id)
  }

  lemma AllSettledExtends(scope: Scope, start: State, s: State, s': State, batch: seq<PathGroup>, n: nat)
    requires n < |batch| && BatchOk(scope, s, batch, n) && OnCourse(scope, start, s)
    requires GroupFrame(scope.companies, s, s', batch[n].key, batch[n].docs) && s'.rows.Keys == s.rows.Keys
    requires AllSettled(scope, s, batch, n) && GroupSettled(scope, s', batch[n].key, batch[n].docs)
    ensures AllSettled(scope, s', batch, n + 1)
  {
    forall j | 0 <= j < n ensures GroupSettled(scope, s', batch[j].key, batch[j].docs) {
      GroupSettledKept(scope, start, s, s', batch, n, j);
    }
  }

  lemma KeptExtends(scope: Scope, s: State, s': State, batch: seq<PathGroup>, n: nat, moved: set<nat>, more: set<nat>)
    requires n < |batch| && BatchOk(scope, s, batch, n) && BatchLaidOut(scope.companies, batch)
    requires GroupFrame(scope.companies, s, s', batch[n].key, batch[n].docs)
    requires moved <= BatchIds(batch, n) && more <= Ids(batch[n].docs)
    ensures |KeptKeys(s', batch, n + 1, moved + more)| <=
            |KeptKeys(s, batch, n, moved)| + (if Ids(batch[n].docs) <= more && batch[n].key in s'.objects then 1 else 0)
  {
    MovedDisjoint(scope, s, batch, n, moved, more);
    forall j | 0 <= j < n && Ids(batch[j].docs) <= moved + more && batch[j].key in s'.objects
      ensures Ids(batch[j].docs) <= moved && batch[j].key in s.objects
    {
      KeptBefore(scope, s, s', batch, n, j, moved, more);
    }
    KeptStep(s, s', batch, n, moved, more);
  }

  lemma KeptBefore(scope: Scope, s: State, s': State, batch: seq<PathGroup>, n: nat, j: nat, moved: set<nat>,
                   more: set<nat>)
    requires j < n < |batch| && BatchOk(scope, s, batch, n) && BatchLaidOut(scope.companies, batch)
    requires GroupFrame(scope.companies, s, s', batch[n].key, batch[n].docs) && more <= Ids(batch[n].docs)
    requires Ids(batch[j].docs) <= moved + more && batch[j].key in s'.objects
    ensures Ids(batch[j].docs) <= moved && batch[j].key in s.objects
  {
    assert Ids(batch[j].docs) !! Ids(batch[n].docs);
    if batch[j].key !in s.objects {
      SourceStaysEmpty(scope, s, s', batch, n, j);
    }
  }

  lemma KeptStep(s: State, s': State, batch: seq<PathGroup>, n: nat, moved: set<nat>, more: set<nat>)
    requires n < |batch| && moved !! Ids(batch[n].docs)
    requires forall j :: 0 <= j < n && Ids(batch[j].docs) <= moved + more && batch[j].key in s'.objects ==>
               Ids(batch[j].docs) <= moved && batch[j].key in s.objects
    ensures |KeptKeys(s', batch, n + 1, moved + more)| <=
            |KeptKeys(s, batch, n, moved)| + (if Ids(batch[n].docs) <= more && batch[n].key in s'.objects then 1 else 0)
  {
    hide Ids;
    var here := if Ids(batch[n].docs) <= more && batch[n].key in s'.objects then {batch[n].key} else {};
    assert Ids(batch[n].docs) <= moved + more ==> Ids(batch[n].docs) <= more;
    SubsetSize(KeptKeys(s', batch, n + 1, moved + more), KeptKeys(s, batch, n, moved) + here);
  }

  lemma AllMoved(docs: seq<Doc>, failures: seq<Failure>, moved: set<nat>, migrated: nat, failed: nat)
    requires DistinctIds(docs) && Accounted(docs, failures, moved) && moved <= Ids(docs)
    requires migrated + failed == |docs| && |moved| == migrated
    ensures failures == [] ==> failed == 0
    ensures Ids(docs) <= moved <==> failed == 0
  {
    IdsCardinality(docs);
    if Ids(docs) <= moved {
      assert moved == Ids(docs);
    } else {
      SubsetSize(moved, Ids(docs));
    }
    if failures == [] {
      forall d | d in docs ensures d.id in moved {
        assert !Reported(failures, 0, d.id);
      }
    }
  }

  /** One group of the batch; one that threw is reported row by row. */
  method MigrateNext(store: Store, g: PathGroup, deleteSource: bool)
      returns (migrated: nat, removed: nat, kept: nat, failures: seq<Failure>, ghost moved: set<nat>)
    requires store.Valid() && GroupOk(store.scope, store.Now(), g.key, g.docs)
    requires AllPromised(store.scope, store.start, g.docs)
    requires deleteSource == store.scope.deleteSource
    modifies store
    ensures store.Valid() && old(store.trace) <= store.trace
    ensures GroupFrame(store.scope.companies, old(store.Now()), store.Now(), g.key, g.docs)
    ensures MovedRehomed(store.Now(), g.docs, moved) && moved <= Ids(g.docs) && |moved| == migrated
    // each row of the group is migrated or reported, also when the group threw, and never both
    ensures Accounted(g.docs, failures, moved) && FiledFor(failures, g.docs, g.key)
    ensures store.faultless ==> UnmovedStay(store.Now(), g.docs, moved)
    ensures removed <= if g.key in old(store.objects) && g.key !in store.objects then 1 else 0
    ensures store.faultless && g.key in old(store.objects) && g.key !in store.objects ==> removed == 1
    ensures Ids(g.docs) <= moved && g.key in store.objects ==> kept == 1
    ensures kept <= if Ids(g.docs) <= moved then 1 else 0
    ensures store.faultless ==> old(store.faultless)
    ensures store.undisturbed ==>
              old(store.undisturbed) && store.rows.Keys == old(store.rows).Keys && store.issued == old(store.issued)
    ensures store.Clean() && OnCourse(store.scope, store.start, old(store.Now())) ==>
              GroupSettled(store.scope, store.Now(), g.key, g.docs)
    ensures store.Clean() && OnCourse(store.scope, store.start, old(store.Now()))
            && (forall d :: d in g.docs ==> !Movable(store.scope.window, old(store.Now()), d.id)) ==>
              store.writes == old(store.writes) && store.Now() == old(store.Now())
  {
    hide Trace, Quiet, Step, Licensed, UploaderScoped, LayoutOk, OnCourse, LegacyKey, GroupFrame, GroupSettled, Movable;
    hide Accounted, MovedRehomed, MovedSeen, Ids, AtSource, Known, UnmovedStay;
    var outcome;
    outcome, failures, moved := MigrateGroup(store, g.key, g.docs, deleteSource);
    migrated, removed, kept := 0, 0, 0;
    match outcome {
      case Done(rows, failed, sourceRemoved) =>
        AllMoved(g.docs, failures, moved, rows, failed);
        migrated := rows;
        if failed == 0 {
          if sourceRemoved { removed := 1; } else { kept := 1; }
        }
      case Aborted =>
        var reports := FailRows(g.docs, None, g.key, Unexpected);
        FiledForBoth(failures, reports, g.docs, g.key);
        AllUnexpected(g.docs, failures, reports);
        failures := failures + reports;
        moved := {};
        NoneMovedRehomed(store.Now(), g.docs);
    }
  }

  method MigrateBatch(store: Store, batch: seq<PathGroup>, deleteSource: bool)
      returns (migratedRows: nat, sourcesRemoved: nat, sourcesKept: nat, failures: seq<Failure>, ghost moved: set<nat>)
    requires store.Valid() && BatchOk(store.scope, store.Now(), batch, 0)
             && GroupsPromised(store.scope, store.start, batch)
    requires deleteSource == store.scope.deleteSource
    modifies store
    ensures store.Valid() && old(store.trace) <= store.trace
    ensures Handled(store.scope, old(store.Now()), store.Now(), batch, |batch|, moved, failures)
    ensures |moved| == migratedRows && (store.faultless ==> BatchUnmoved(store.Now(), batch, |batch|, moved))
    // a source that is still there though its whole group was migrated has been counted
    ensures BatchLaidOut(store.scope.companies, batch) ==> |KeptKeys(store.Now(), batch, |batch|, moved)| <= sourcesKept
    ensures sourcesKept <= |FullKeys(batch, |batch|, moved)|
    ensures BatchLaidOut(store.scope.companies, batch) ==>
              Removals(old(store.Now()), store.Now(), batch, |batch|, sourcesRemoved, store.faultless)
    ensures store.faultless ==> old(store.faultless)
    ensures store.undisturbed ==>
              old(store.undisturbed) && store.rows.Keys == old(store.rows).Keys && store.issued == old(store.issued)
    ensures BatchOk(store.scope, store.Now(), batch, |batch|) && OthersStay(old(store.Now()), store.Now(), batch)
    ensures store.Clean() && Sane(store) ==> AllSettled(store.scope, store.Now(), batch, |batch|)
    ensures store.Clean() && Sane(store) && NothingMovable(store.scope, old(store.Now()), batch) ==>
              store.writes == old(store.writes) && store.Now() == old(store.Now())
    ensures batch == [] ==> store.Now() == old(store.Now()) && migratedRows == 0 && sourcesKept == 0 && failures == []
  {
    hide Trace, Quiet, Step, Licensed, UploaderScoped, LayoutOk, OnCourse, LegacyKey, Sane, GroupFrame, GroupSettled,
         Movable;
    hide BatchOk, Handled, KeptKeys, FullKeys, AllSettled, BatchLaidOut, GroupOk, Accounted, MovedRehomed, MovedSeen,
         Ids, FiledFor, BatchAccounted, BatchUnmoved, UnmovedStay, BatchIds, DistinctIds, AllPromised, OthersStay,
         Removals, SourcesTallied;
    ghost var s0 := store.Now();
    migratedRows, sourcesRemoved, sourcesKept, failures, moved := 0, 0, 0, [], {};
    BatchStart(store.scope, s0, batch);
    for i := 0 to |batch|
      invariant store.Valid() && old(store.trace) <= store.trace
      invariant i == 0 ==> store.Now() == s0 && migratedRows == 0 && sourcesKept == 0 && failures == []
      invariant BatchOk(store.scope, store.Now(), batch, i) && OthersStay(s0, store.Now(), batch)
      invariant Handled(store.scope, s0, store.Now(), batch, i, moved, failures)
      invariant |moved| == migratedRows && (store.faultless ==> BatchUnmoved(store.Now(), batch, i, moved))
      invariant SourcesTallied(store.scope, s0, store.Now(), batch, i, moved, sourcesKept, sourcesRemoved,
                               store.faultless)
      invariant sourcesKept <= |FullKeys(batch, i, moved)|
      invariant store.faultless ==> old(store.faultless)
      invariant store.undisturbed ==>
                  old(store.undisturbed) && store.rows.Keys == s0.rows.Keys && store.issued == s0.issued
      invariant store.Clean() && Sane(store) ==> AllSettled(store.scope, store.Now(), batch, i)
      invariant store.Clean() && Sane(store) && NothingMovable(store.scope, s0, batch) ==>
                  store.writes == old(store.writes) && store.Now() == s0
    {
      var g := batch[i];
      ghost var s1 := store.Now();
      if store.undisturbed && Sane(store) { CourseHolds(store); }
      GroupOfBatch(store.scope, s1, batch, i);
      HandledMoved(store.scope, s0, s1, batch, i, moved, failures);
      var migrated, removed, kept, more;
      ghost var moved0, failures0, movedHere, faultless := moved, failures, {}, store.faultless;
      ghost var kept0, removed0 := sourcesKept, sourcesRemoved;
      migrated, removed, kept, more, movedHere := MigrateNext(store, g, deleteSource);
      ghost var s2 := store.Now();
      BatchOkKept(store.scope, s1, s2, batch, i);
      OthersStillThere(store.scope, s0, s1, s2, batch, i);
      migratedRows, sourcesRemoved, sourcesKept := migratedRows + migrated, sourcesRemoved + removed,
          sourcesKept + kept;
      failures, moved := failures + more, moved + movedHere;
      HandledExtends(store.scope, s0, s1, s2, batch, i, moved0, failures0, movedHere, more);
      if store.faultless { UnmovedKept(store.scope, s1, s2, batch, i, moved0, movedHere); }
      FullExtends(store.scope, s1, batch, i, moved0, movedHere);
      SourcesTalliedExtend(store.scope, s0, s1, s2, batch, i, moved0, movedHere, kept0, removed0, faultless,
                           store.faultless, kept, removed);
      if store.Clean() && Sane(store) {
        AllSettledExtends(store.scope, store.start, s1, s2, batch, i);
      }
    }
    SourcesCounted(store.scope, s0, store.Now(), batch, moved, sourcesKept, sourcesRemoved, store.faultless);
  }

  lemma SourcesCounted(scope: Scope, s0: State, s: State, batch: seq<PathGroup>, moved: set<nat>, kept: nat,
                       removed: nat, faultless: bool)
    requires SourcesTallied(scope, s0, s, batch, |batch|, moved, kept, removed, faultless)
    ensures BatchLaidOut(scope.companies, batch) ==>
              |KeptKeys(s, batch, |batch|, moved)| <= kept && Removals(s0, s, batch, |batch|, removed, faultless)
  {
  }

  lemma AllUnexpected(docs: seq<Doc>, failures: seq<Failure>, reports: seq<Failure>)
    requires forall id :: Reported(reports, 0, id) <==> exists d :: d in docs && d.id == id
    ensures Accounted(docs, failures + reports, {})
  {
    forall d | d in docs ensures Reported(failures + reports, 0, d.id) {
      ReportedGrows(failures, reports, 0, d.id);
    }
  }

  lemma NoneMovedRehomed(s: State, docs: seq<Doc>)
    requires docs != []
    ensures MovedRehomed(s, docs, {}) && !(Ids(docs) <= {})
  {
    assert docs[0].id in Ids(docs);
  }

  lemma HandledMoved(scope: Scope, s0: State, s: State, batch: seq<PathGroup>, n: nat, moved: set<nat>,
                     failures: seq<Failure>)
    requires Handled(scope, s0, s, batch, n, moved, failures)
    ensures moved <= BatchIds(batch, n)
  {
  }

  lemma BatchStart(scope: Scope, s: State, batch: seq<PathGroup>)
    requires s.rows.Keys <= s.issued
    ensures Handled(scope, s, s, batch, 0, {}, []) && FullKeys(batch, 0, {}) == {} && BatchUnmoved(s, batch, 0, {})
    ensures KeptKeys(s, batch, 0, {}) == {} && AllSettled(scope, s, batch, 0) && OthersStay(s, s, batch)
    ensures forall faultless :: SourcesTallied(scope, s, s, batch, 0, {}, 0, 0, faultless)
  {
    assert s.objects.Keys - s.objects.Keys == {};
  }

  lemma GroupOfBatch(scope: Scope, s: State, batch: seq<PathGroup>, i: nat)
    requires i < |batch| && BatchOk(scope, s, batch, i)
    ensures GroupOk(scope, s, batch[i].key, batch[i].docs)
    ensures batch[i].docs != [] && DistinctIds(batch[i].docs)
    ensures NothingMovable(scope, s, batch) ==> forall d :: d in batch[i].docs ==> !Movable(scope.window, s, d.id)
  {
  }

  // ----- the plan of a run -----

  ghost function ItemIds(items: seq<Keyed>): set<nat> {
    set it | it in items :: it.doc.id
  }

  lemma ItemIdsCardinality(items: seq<Keyed>)
    requires DistinctItems(items)
    ensures |ItemIds(items)| == |items|
  {
    if items != [] {
      var front := items[..|items| - 1];
      ItemIdsCardinality(front);
      assert items == front + [items[|items| - 1]];
      assert ItemIds(items) == ItemIds(front) + {items[|items| - 1].doc.id};
    }
  }

  ghost predicate CandidatesOf(candidates: seq<Keyed>, docs: seq<Doc>) {
    && DistinctItems(candidates)
    && forall it :: it in candidates <==> it.doc in docs && Candidate(it.doc.row) && it.doc.row.path == Some(it.key)
  }

  ghost predicate ScopedOf(scoped: seq<Keyed>, docs: seq<Doc>) {
    && DistinctItems(scoped)
    && forall it :: it in scoped <==>
       it.doc in docs && AlreadyScoped(it.doc.row) && LegacyKey(it.doc.row) == Some(it.key)
  }

  ghost function TotalDocs(groups: seq<PathGroup>): nat {
    if groups == [] then 0 else TotalDocs(groups[..|groups| - 1]) + |groups[|groups| - 1].docs|
  }

  /** Groups are taken whole, and no further one once the limit is reached; without a limit all are. */
  method TakeBatch(groups: seq<PathGroup>, limit: Option<nat>) returns (batch: seq<PathGroup>)
    ensures batch <= groups
    ensures limit.None? ==> batch == groups
    ensures limit.Some? && batch != groups ==> TotalDocs(batch) >= limit.value
    ensures limit.Some? && batch != [] ==> TotalDocs(batch[..|batch| - 1]) < limit.value
  {
    var n, batchRows := 0, 0;
    while n < |groups| && (limit.None? || batchRows < limit.value)
      invariant n <= |groups| && batchRows == TotalDocs(groups[..n])
      invariant limit.Some? && n > 0 ==> TotalDocs(groups[..n - 1]) < limit.value
    {
      assert groups[..n + 1][..n] == groups[..n];
      batchRows := batchRows + |groups[n].docs|;
      n := n + 1;
    }
    batch := groups[..n];
    assert n > 0 ==> batch[..n - 1] == groups[..n - 1];
  }

  lemma SameIdSameItem(items: seq<Keyed>, it0: Keyed, it1: Keyed)
    requires DistinctItems(items) && it0 in items && it1 in items && it0.doc.id == it1.doc.id
    ensures it0 == it1
  {
    var i :| 0 <= i < |items| && items[i] == it0;
    var j :| 0 <= j < |items| && items[j] == it1;
  }

  lemma PlanIsOk(scope: Scope, s: State, docs: seq<Doc>, candidates: seq<Keyed>, groups: seq<PathGroup>,
                 batch: seq<PathGroup>)
    requires FetchedOk(scope.window, docs, s) && CandidatesOf(candidates, docs) && GroupsOf(groups, candidates)
    requires batch <= groups
    ensures BatchOk(scope, s, batch, 0)
    ensures BatchIds(batch, |batch|) <= ItemIds(candidates)
  {
    forall i, j | 0 <= i < j < |batch|
      ensures Ids(batch[i].docs) !! Ids(batch[j].docs)
    {
      assert batch[i] == groups[i] && batch[j] == groups[j];
      forall d, e | d in batch[i].docs && e in batch[j].docs
        ensures d.id != e.id
      {
        if d.id == e.id {
          SameIdSameItem(candidates, Keyed(groups[i].key, d), Keyed(groups[j].key, e));
        }
      }
    }
    forall i | 0 <= i < |batch|
      ensures GroupOk(scope, s, batch[i].key, batch[i].docs) && GroupTracked(scope, s, batch[i])
    {
      assert batch[i] == groups[i];
      forall d | d in batch[i].docs
        ensures AtSource(scope, batch[i].key, d) && Known(s, d)
      {
        assert Keyed(groups[i].key, d) in candidates;
      }
    }
    forall i, d | 0 <= i < |batch| && d in batch[i].docs
      ensures d.id in ItemIds(candidates)
    {
      assert batch[i] == groups[i];
      assert Keyed(groups[i].key, d) in candidates;
    }
  }

  /** The sweep leaves out the keys this run handled as migration sources. */
  method SkipBatchKeys(scoped: seq<Keyed>, batch: seq<PathGroup>) returns (items: seq<Keyed>)
    requires DistinctItems(scoped)
    ensures DistinctItems(items)
    ensures forall it :: it in items <==> it in scoped && !IsBatchKey(batch, it.key)
  {
    var keys := set g | g in batch :: g.key;
    items := [];
    for i := 0 to |scoped|
      invariant DistinctItems(items)
      invariant forall it :: it in items <==> it in scoped[..i] && !IsBatchKey(batch, it.key)
    {
      assert scoped[..i + 1] == scoped[..i] + [scoped[i]];
      assert scoped[i].key in keys <==> IsBatchKey(batch, scoped[i].key);
      if scoped[i].key !in keys {
        items := items + [scoped[i]];
      }
    }
    assert scoped[..|scoped|] == scoped;
  }

  /** A row whose id the batch does not hold is what it was when fetched, or new. */
  lemma SweepPlanIsOk(scope: Scope, s0: State, s: State, docs: seq<Doc>, candidates: seq<Keyed>, scoped: seq<Keyed>,
                      batch: seq<PathGroup>, items: seq<Keyed>, groups: seq<PathGroup>)
    requires FetchedOk(scope.window, docs, s0) && CandidatesOf(candidates, docs) && ScopedOf(scoped, docs)
    requires BatchIds(batch, |batch|) <= ItemIds(candidates)
    requires RowsByOthers(scope.companies, s0, s, BatchIds(batch, |batch|))
    requires (forall it :: it in items ==> it in scoped) && GroupsOf(groups, items)
    ensures SweepOk(scope, s, groups)
  {
    forall g | g in groups
      ensures SweepGroupOk(scope, s, g)
    {
      var i :| 0 <= i < |groups| && groups[i] == g;
      forall d | d in g.docs
        ensures AlreadyScoped(d.row) && InWindow(scope.window, d.row) && LegacyKey(d.row) == Some(g.key) && Known(s, d)
      {
        assert Keyed(g.key, d) in items;
        assert Known(s0, d);
        forall it | it in candidates ensures it.doc.id != d.id {
          if it.doc.id == d.id { FetchedOnce(docs, it.doc, d); }
        }
      }
    }
  }

  lemma FetchedOnce(docs: seq<Doc>, d: Doc, e: Doc)
    requires forall i, j :: 0 <= i < j < |docs| ==> docs[i].id < docs[j].id
    requires d in docs && e in docs && d.id == e.id
    ensures d == e
  {
    var i :| 0 <= i < |docs| && docs[i] == d;
    var j :| 0 <= j < |docs| && docs[j] == e;
  }

  // ----- the gate -----

  datatype Report = Report(
    migratedRows: nat,
    legacyRowsRemaining: int,
    legacyObjectsRemaining: int,
    legacyObjectsRemoved: nat,
    failures: seq<Failure>,
    gateOpen: bool)

  ghost function StillLegacy(window: Option<string>, s: State): set<nat> {
    set id | id in s.rows && InWindow(window, s.rows[id]) && Candidate(s.rows[id])
  }

  /** No row of the window is on a legacy key, and no object is at a legacy key of the fetched rows. */
  ghost predicate GateSound(window: Option<string>, fetched: State, s: State) {
    && StillLegacy(window, s) == {}
    && forall id :: id in fetched.rows && InWindow(window, fetched.rows[id]) && LegacyKey(fetched.rows[id]).Some? ==>
         LegacyKey(fetched.rows[id]).value !in s.objects
  }

  /** The legacy keys of the fetched rows that still have an object. */
  ghost function LeftObjects(window: Option<string>, fetched: State, s: State): set<string> {
    set id | id in fetched.rows && InWindow(window, fetched.rows[id])
             && LegacyKey(fetched.rows[id]).Some? && LegacyKey(fetched.rows[id]).value in s.objects
      :: LegacyKey(fetched.rows[id]).value
  }

  lemma NothingLeftIsSound(window: Option<string>, fetched: State, s: State, unmoved: set<string>)
    requires |StillLegacy(window, s)| <= 0
    requires |unmoved| <= 0 && |LeftObjects(window, fetched, s) - unmoved| <= 0
    ensures GateSound(window, fetched, s)
  {
    assert StillLegacy(window, s) == {} && unmoved == {} && LeftObjects(window, fetched, s) - unmoved == {};
    forall id | id in fetched.rows && InWindow(window, fetched.rows[id]) && LegacyKey(fetched.rows[id]).Some?
      ensures LegacyKey(fetched.rows[id]).value !in LeftObjects(window, fetched, s)
    {
    }
  }

  /** A row still on a legacy key was fetched as a candidate and has not been migrated. */
  lemma StillLegacyUnmoved(scope: Scope, s0: State, s: State, docs: seq<Doc>, candidates: seq<Keyed>,
                           batch: seq<PathGroup>, moved: set<nat>, failures: seq<Failure>, id: nat)
    requires Complete(scope.window, docs, s0) && CandidatesOf(candidates, docs)
    requires BatchOk(scope, s0, batch, 0)
    requires BatchIds(batch, |batch|) <= ItemIds(candidates)
    requires Handled(scope, s0, s, batch, |batch|, moved, failures)
    requires id in StillLegacy(scope.window, s)
    ensures id in ItemIds(candidates) && id !in moved
  {
    if id in BatchIds(batch, |batch|) {
      var j, d :| 0 <= j < |batch| && d in batch[j].docs && d.id == id;
      assert GroupTracked(scope, s0, batch[j]) && MovedRehomed(s, batch[j].docs, moved);
      RehomedFacts(d.row);
    } else {
      assert id in s0.rows && s.rows[id] == s0.rows[id];
      assert Keyed(s0.rows[id].path.value, Doc(id, s0.rows[id])) in candidates;
    }
  }

  /** The row counter never under-counts. */
  lemma RowsCounted(scope: Scope, s0: State, s: State, docs: seq<Doc>, candidates: seq<Keyed>,
                    batch: seq<PathGroup>, moved: set<nat>, failures: seq<Failure>)
    requires Complete(scope.window, docs, s0) && CandidatesOf(candidates, docs)
    requires BatchOk(scope, s0, batch, 0)
    requires BatchIds(batch, |batch|) <= ItemIds(candidates)
    requires Handled(scope, s0, s, batch, |batch|, moved, failures)
    ensures |StillLegacy(scope.window, s)| <= |candidates| - |moved|
    ensures moved <= ItemIds(candidates) && |moved| <= |candidates|
  {
    var still, all := StillLegacy(scope.window, s), ItemIds(candidates);
    assert moved <= all;
    ItemIdsCardinality(candidates);
    hide Complete, CandidatesOf, BatchOk, Handled, StillLegacy, ItemIds, BatchIds;
    forall id | id in still ensures id in all - moved {
      StillLegacyUnmoved(scope, s0, s, docs, candidates, batch, moved, failures, id);
    }
    SubsetSize(still, all - moved);
    assert all == moved + (all - moved);
  }

  /** The legacy key of a fetched row was handled by the batch or by the sweep. */
  lemma KeyHandled(scope: Scope, s0: State, docs: seq<Doc>, candidates: seq<Keyed>, scoped: seq<Keyed>,
                   groups: seq<PathGroup>, batch: seq<PathGroup>, items: seq<Keyed>, sweepGroups: seq<PathGroup>,
                   id: nat)
    requires Complete(scope.window, docs, s0) && CandidatesOf(candidates, docs) && ScopedOf(scoped, docs)
    requires GroupsOf(groups, candidates) && batch <= groups && GroupsOf(sweepGroups, items)
    requires ItemIds(candidates) <= BatchIds(batch, |batch|)
    requires forall it :: it in items <==> it in scoped && !IsBatchKey(batch, it.key)
    requires id in s0.rows && InWindow(scope.window, s0.rows[id]) && LegacyKey(s0.rows[id]).Some?
    ensures var key := LegacyKey(s0.rows[id]).value;
            || IsBatchKey(batch, key)
            || exists g :: g in sweepGroups && g.key == key
  {
    var row := s0.rows[id];
    var key := LegacyKey(row).value;
    var d := Doc(id, row);
    assert d in docs;
    if AlreadyScoped(row) {
      assert Keyed(key, d) in scoped;
      if !IsBatchKey(batch, key) {
        var i :| 0 <= i < |sweepGroups| && sweepGroups[i].key == key && d in sweepGroups[i].docs;
        assert sweepGroups[i] in sweepGroups;
      }
    } else {
      assert Keyed(key, d) in candidates;
      assert id in ItemIds(candidates);
      var j, e :| 0 <= j < |batch| && e in batch[j].docs && e.id == id;
      assert batch[j] == groups[j];
      SameIdSameItem(candidates, Keyed(batch[j].key, e), Keyed(key, d));
    }
  }

  /** The keys of candidates that were not migrated, at most one for each of them. */
  ghost function UnmovedKeys(candidates: seq<Keyed>, moved: set<nat>): set<string> {
    set it | it in candidates && it.doc.id !in moved :: it.key
  }

  lemma {:induction false} UnmovedKeysAtMost(candidates: seq<Keyed>, moved: set<nat>)
    requires DistinctItems(candidates)
    ensures |UnmovedKeys(candidates, moved)| <= |ItemIds(candidates) - moved|
  {
    if candidates != [] {
      var front, last := candidates[..|candidates| - 1], candidates[|candidates| - 1];
      UnmovedKeysAtMost(front, moved);
      assert candidates == front + [last];
      UnmovedKeysStep(front, last, moved);
      assert last.doc.id !in ItemIds(front);
      hide UnmovedKeys, ItemIds, DistinctItems;
      assert last.doc.id !in moved ==> |ItemIds(candidates) - moved| == |ItemIds(front) - moved| + 1;
    }
  }

  lemma UnmovedKeysStep(front: seq<Keyed>, last: Keyed, moved: set<nat>)
    ensures ItemIds(front + [last]) - moved
            == (ItemIds(front) - moved) + (if last.doc.id in moved then {} else {last.doc.id})
    ensures UnmovedKeys(front + [last], moved)
            == UnmovedKeys(front, moved) + (if last.doc.id in moved then {} else {last.key})
  {
    assert ItemIds(front + [last]) == ItemIds(front) + {last.doc.id};
  }

  lemma UnmovedCount(candidates: seq<Keyed>, moved: set<nat>)
    requires DistinctItems(candidates) && moved <= ItemIds(candidates)
    ensures |UnmovedKeys(candidates, moved)| <= |candidates| - |moved|
  {
    UnmovedKeysAtMost(candidates, moved);
    ItemIdsCardinality(candidates);
    assert ItemIds(candidates) == (ItemIds(candidates) - moved) + moved;
  }

  /** A batch key is that of an unmigrated candidate, or its whole group was migrated. */
  lemma BatchKeyAccounted(p: Plan, limit: Option<nat>, moved: set<nat>, j: nat)
    requires Planned(p, limit) && j < |p.batch|
    ensures p.batch[j].key in UnmovedKeys(p.candidates, moved) || Ids(p.batch[j].docs) <= moved
  {
    var g := p.batch[j];
    assert g == p.groups[j];
    if !(Ids(g.docs) <= moved) {
      var d :| d in g.docs && d.id !in moved;
      assert Keyed(g.key, d) in p.candidates;
    }
  }

  /** Every leftover object is accounted for: by an unmigrated row, a kept source or the sweep. */
  lemma ObjectAccounted(scope: Scope, s0: State, s: State, p: Plan, limit: Option<nat>, moved: set<nat>, id: nat)
    requires Planned(p, limit) && Complete(scope.window, p.docs, s0)
    requires moved <= BatchIds(p.batch, |p.batch|)
    requires id in s0.rows && InWindow(scope.window, s0.rows[id]) && LegacyKey(s0.rows[id]).Some?
    requires LegacyKey(s0.rows[id]).value in s.objects
    ensures var key := LegacyKey(s0.rows[id]).value;
            || key in UnmovedKeys(p.candidates, moved)
            || key in KeptKeys(s, p.batch, |p.batch|, moved)
            || key in LeftKeys(s, p.sweepGroups, |p.sweepGroups|)
  {
    var row := s0.rows[id];
    var key, d := LegacyKey(row).value, Doc(id, row);
    assert d in p.docs;
    hide LegacyKey;
    if AlreadyScoped(row) && !IsBatchKey(p.batch, key) {
      assert Keyed(key, d) in p.scoped && Keyed(key, d) in p.items;
      var i :| 0 <= i < |p.sweepGroups| && p.sweepGroups[i].key == key && d in p.sweepGroups[i].docs;
    } else if AlreadyScoped(row) {
      var j :| 0 <= j < |p.batch| && p.batch[j].key == key;
      BatchKeyAccounted(p, limit, moved, j);
    } else {
      CandidateKey(row);
      assert Keyed(key, d) in p.candidates;
      if id in moved {
        var j, e :| 0 <= j < |p.batch| && e in p.batch[j].docs && e.id == id;
        assert p.batch[j] == p.groups[j];
        SameIdSameItem(p.candidates, Keyed(key, d), Keyed(p.batch[j].key, e));
        BatchKeyAccounted(p, limit, moved, j);
      }
    }
  }

  lemma CandidateKey(row: Row)
    requires LegacyKey(row).Some? && !AlreadyScoped(row)
    ensures Candidate(row) && row.path == LegacyKey(row)
  {
  }

  lemma KeptShrinks(s1: State, s2: State, batch: seq<PathGroup>, moved: set<nat>)
    requires s2.objects.Keys <= s1.objects.Keys
    ensures |KeptKeys(s2, batch, |batch|, moved)| <= |KeptKeys(s1, batch, |batch|, moved)|
  {
    SubsetSize(KeptKeys(s2, batch, |batch|, moved), KeptKeys(s1, batch, |batch|, moved));
  }

  /** The object counter misses no leftover but those at the keys of candidates that were not migrated. */
  lemma ObjectsCounted(scope: Scope, s0: State, s1: State, s2: State, p: Plan, limit: Option<nat>, moved: set<nat>,
                       kept: nat, left: int)
    requires Planned(p, limit) && Complete(scope.window, p.docs, s0)
    requires moved <= BatchIds(p.batch, |p.batch|) && BatchIds(p.batch, |p.batch|) <= ItemIds(p.candidates)
    requires s2.objects.Keys <= s1.objects.Keys
    requires |KeptKeys(s1, p.batch, |p.batch|, moved)| <= kept
    requires |LeftKeys(s2, p.sweepGroups, |p.sweepGroups|)| <= left
    ensures |LeftObjects(scope.window, s0, s2) - UnmovedKeys(p.candidates, moved)| <= left + kept
    ensures |UnmovedKeys(p.candidates, moved)| <= |p.candidates| - |moved|
  {
    var unmoved := UnmovedKeys(p.candidates, moved);
    var keptKeys := KeptKeys(s2, p.batch, |p.batch|, moved);
    var leftKeys := LeftKeys(s2, p.sweepGroups, |p.sweepGroups|);
    UnmovedCount(p.candidates, moved);
    KeptShrinks(s1, s2, p.batch, moved);
    hide LeftObjects, Planned, Complete, UnmovedKeys, KeptKeys, LeftKeys, ItemIds, BatchIds, LegacyKey, InWindow;
    forall key | key in LeftObjects(scope.window, s0, s2) - unmoved ensures key in keptKeys + leftKeys {
      var id := LeftBehind(scope.window, s0, s2, key);
      ObjectAccounted(scope, s0, s2, p, limit, moved, id);
    }
    SubsetSize(LeftObjects(scope.window, s0, s2) - unmoved, keptKeys + leftKeys);
  }

  /** The two counters together never under-count. */
  lemma CountersAdd(left: set<string>, unmoved: set<string>, rows: int, objects: int)
    requires |left - unmoved| <= objects && |unmoved| <= rows
    ensures |left| <= rows + objects
  {
    SubsetSize(left, (left - unmoved) + unmoved);
  }

  lemma LeftBehind(window: Option<string>, fetched: State, s: State, key: string) returns (id: nat)
    requires key in LeftObjects(window, fetched, s)
    ensures id in fetched.rows && InWindow(window, fetched.rows[id]) && LegacyKey(fetched.rows[id]) == Some(key)
            && key in s.objects
  {
    id :| id in fetched.rows && InWindow(window, fetched.rows[id]) && LegacyKey(fetched.rows[id]) == Some(key);
  }

  lemma UnlimitedCovers(candidates: seq<Keyed>, groups: seq<PathGroup>)
    requires GroupsOf(groups, candidates)
    ensures ItemIds(candidates) <= BatchIds(groups, |groups|)
  {
    forall it | it in candidates ensures it.doc.id in BatchIds(groups, |groups|) {
      var i :| 0 <= i < |groups| && groups[i].key == it.key && it.doc in groups[i].docs;
    }
  }

  /** After an unlimited batch no row can be moved, and the sweep does not change that. */
  lemma NothingMovableAfter(scope: Scope, start: State, s0: State, s1: State, s: State, docs: seq<Doc>,
                            candidates: seq<Keyed>, batch: seq<PathGroup>, id: nat)
    requires OnCourse(scope, start, s0) && Complete(scope.window, docs, s0) && CandidatesOf(candidates, docs)
    requires BatchOk(scope, s0, batch, 0) && ItemIds(candidates) <= BatchIds(batch, |batch|)
    requires RowsByOthers(scope.companies, s0, s1, BatchIds(batch, |batch|)) && s1.rows.Keys == s0.rows.Keys
    requires AllSettled(scope, s1, batch, |batch|)
    requires OnCourse(scope, start, s1) && s.rows == s1.rows && s.objects.Keys <= s1.objects.Keys
    requires forall key :: key in s.objects ==> s.objects[key] == s1.objects[key]
    requires forall key :: key in s1.objects && key !in s.objects ==> UploaderScoped(scope.companies, key)
    ensures !Movable(scope.window, s, id)
  {
    if id in s0.rows && Candidate(s0.rows[id]) && InWindow(scope.window, s0.rows[id]) {
      assert Keyed(s0.rows[id].path.value, Doc(id, s0.rows[id])) in candidates;
      assert id in BatchIds(batch, |batch|);
    }
    if id in BatchIds(batch, |batch|) {
      var j, d :| 0 <= j < |batch| && d in batch[j].docs && d.id == id;
      assert GroupSettled(scope, s1, batch[j].key, batch[j].docs);
    }
    assert !Movable(scope.window, s1, id);
    if id in s.rows && Candidate(s.rows[id]) {
      RehomedFacts(s.rows[id]);
      assert LayoutOk(scope.companies, s.rows[id]);
      assert !UploaderScoped(scope.companies, Target(s.rows[id]));
    }
  }

  /** No leftover source can be removed any more. */
  lemma NothingDisposableAfter(scope: Scope, start: State, s0: State, s1: State, s: State, docs: seq<Doc>,
                               candidates: seq<Keyed>, scoped: seq<Keyed>, groups: seq<PathGroup>,
                               batch: seq<PathGroup>,
                               items: seq<Keyed>, sweepGroups: seq<PathGroup>, key: string)
    requires Complete(scope.window, docs, s0) && CandidatesOf(candidates, docs) && ScopedOf(scoped, docs)
    requires s0.rows.Keys <= s0.issued
    requires GroupsOf(groups, candidates) && batch <= groups && GroupsOf(sweepGroups, items)
    requires ItemIds(candidates) <= BatchIds(batch, |batch|) && BatchOk(scope, s1, batch, |batch|)
    requires forall it :: it in items <==> it in scoped && !IsBatchKey(batch, it.key)
    requires RowsByOthers(scope.companies, s0, s1, BatchIds(batch, |batch|)) && s1.rows.Keys == s0.rows.Keys
    requires forall i, d :: 0 <= i < |batch| && d in batch[i].docs ==> Known(s0, d)
    requires scope.deleteSource && AllSettled(scope, s1, batch, |batch|)
    requires s.rows == s1.rows && s.objects.Keys <= s1.objects.Keys
    requires Swept(s, sweepGroups, |sweepGroups|)
    requires forall id :: !Movable(scope.window, s, id)
    requires key in s.objects
    ensures !Disposable(scope.window, s, key)
  {
    if exists id :: id in s.rows && InWindow(scope.window, s.rows[id]) && LegacyKey(s.rows[id]) == Some(key) {
      var id :| id in s.rows && InWindow(scope.window, s.rows[id]) && LegacyKey(s.rows[id]) == Some(key);
      SameLegacyKey(scope, s0, s1, batch, id);
      KeyHandled(scope, s0, docs, candidates, scoped, groups, batch, items, sweepGroups, id);
      KeyStillReferenced(scope, s1, s, batch, sweepGroups, key);
      var other :| RowAt(s, other, key);
    }
  }

  lemma KeyStillReferenced(scope: Scope, s1: State, s: State, batch: seq<PathGroup>, sweepGroups: seq<PathGroup>,
                           key: string)
    requires scope.deleteSource && AllSettled(scope, s1, batch, |batch|)
    requires s.rows == s1.rows && s.objects.Keys <= s1.objects.Keys && key in s.objects
    requires Swept(s, sweepGroups, |sweepGroups|)
    requires IsBatchKey(batch, key) || exists g :: g in sweepGroups && g.key == key
    ensures Referenced(s, key)
  {
    if IsBatchKey(batch, key) {
      var j :| 0 <= j < |batch| && batch[j].key == key;
      assert GroupSettled(scope, s1, batch[j].key, batch[j].docs);
      var other :| RowAt(s1, other, key);
      assert RowAt(s, other, key);
    } else {
      var g :| g in sweepGroups && g.key == key;
      var j :| 0 <= j < |sweepGroups| && sweepGroups[j] == g;
    }
  }

  lemma SameLegacyKey(scope: Scope, s0: State, s1: State, batch: seq<PathGroup>, id: nat)
    requires RowsByOthers(scope.companies, s0, s1, BatchIds(batch, |batch|)) && s1.rows.Keys == s0.rows.Keys
    requires BatchOk(scope, s1, batch, |batch|)
    requires forall i, d :: 0 <= i < |batch| && d in batch[i].docs ==> Known(s0, d)
    requires id in s1.rows && s0.rows.Keys <= s0.issued
    ensures LegacyKey(s0.rows[id]) == LegacyKey(s1.rows[id])
    ensures s0.rows[id].company == s1.rows[id].company
  {
    if id in BatchIds(batch, |batch|) {
      var j, d :| 0 <= j < |batch| && d in batch[j].docs && d.id == id;
      assert GroupTracked(scope, s1, batch[j]) && Tracked(s1, d) && Known(s0, d);
      RehomedFacts(d.row);
    }
  }

  /** A settled store offers the batch and the sweep nothing to do. */
  lemma SettledIsIdle(scope: Scope, s: State, docs: seq<Doc>, scoped: seq<Keyed>, batch: seq<PathGroup>,
                      items: seq<Keyed>, sweepGroups: seq<PathGroup>)
    requires Settled(scope, s) && s.rows.Keys == s.issued
    requires FetchedOk(scope.window, docs, s) && ScopedOf(scoped, docs)
    requires (forall it :: it in items ==> it in scoped) && GroupsOf(sweepGroups, items)
    ensures NothingMovable(scope, s, batch)
    ensures scope.deleteSource ==> Swept(s, sweepGroups, |sweepGroups|)
  {
    if scope.deleteSource {
      forall j | 0 <= j < |sweepGroups| && sweepGroups[j].key in s.objects
        ensures Referenced(s, sweepGroups[j].key)
      {
        var key := sweepGroups[j].key;
        var d := sweepGroups[j].docs[0];
        assert d in sweepGroups[j].docs && Keyed(key, d) in items && Known(s, d);
        assert InWindow(scope.window, s.rows[d.id]) && LegacyKey(s.rows[d.id]) == Some(key);
        assert !Disposable(scope.window, s, key);
        var id :| id in s.rows && s.rows[id].path == Some(key) && !Movable(scope.window, s, id);
        assert RowAt(s, id, key);
      }
    }
  }

  // ----- the run -----

  /** What a run intends, decided from the fetched rows alone. */
  datatype Plan = Plan(
    docs: seq<Doc>,
    candidates: seq<Keyed>,
    scoped: seq<Keyed>,
    groups: seq<PathGroup>,
    batch: seq<PathGroup>,
    items: seq<Keyed>,
    sweepGroups: seq<PathGroup>)

  ghost predicate Planned(p: Plan, limit: Option<nat>) {
    && CandidatesOf(p.candidates, p.docs) && ScopedOf(p.scoped, p.docs)
    && GroupsOf(p.groups, p.candidates)
    && p.batch <= p.groups && (limit.None? ==> p.batch == p.groups)
    && (limit.Some? && p.batch != p.groups ==> |BatchIds(p.batch, |p.batch|)| >= limit.value)
    && (limit.Some? && p.batch != [] ==> |BatchIds(p.batch, |p.batch| - 1)| < limit.value)
    && (forall it :: it in p.items <==> it in p.scoped && !IsBatchKey(p.batch, it.key))
    && GroupsOf(p.sweepGroups, p.items)
  }

  /** The rows of the groups are as many as their lists are long. */
  lemma {:induction false} RowsInBatch(groups: seq<PathGroup>, items: seq<Keyed>, n: nat)
    requires GroupsOf(groups, items) && DistinctItems(items) && n <= |groups|
    ensures TotalDocs(groups[..n]) == |BatchIds(groups, n)|
  {
    if n == 0 {
      assert BatchIds(groups, 0) == {};
    } else {
      RowsInBatch(groups, items, n - 1);
      assert groups[..n][..n - 1] == groups[..n - 1];
      IdsCardinality(groups[n - 1].docs);
      NextRowsAreNew(groups, items, n - 1);
      assert BatchIds(groups, n) == BatchIds(groups, n - 1) + Ids(groups[n - 1].docs);
      hide BatchIds, Ids, GroupsOf, DistinctItems;
    }
  }

  lemma NextRowsAreNew(groups: seq<PathGroup>, items: seq<Keyed>, n: nat)
    requires GroupsOf(groups, items) && DistinctItems(items) && n < |groups|
    ensures BatchIds(groups, n) !! Ids(groups[n].docs)
  {
    forall id | id in BatchIds(groups, n) ensures id !in Ids(groups[n].docs) {
      var j, d :| 0 <= j < n && j < |groups| && d in groups[j].docs && d.id == id;
      forall e | e in groups[n].docs ensures e.id != id {
        assert Keyed(groups[j].key, d) in items && Keyed(groups[n].key, e) in items;
        if e.id == id {
          SameIdSameItem(items, Keyed(groups[j].key, d), Keyed(groups[n].key, e));
        }
      }
    }
  }

  lemma SameBatchIds(groups: seq<PathGroup>, batch: seq<PathGroup>)
    requires batch <= groups
    ensures forall n: nat :: n <= |batch| ==> BatchIds(batch, n) == BatchIds(groups, n)
    ensures batch == groups[..|batch|] && forall n :: 0 <= n <= |batch| ==> batch[..n] == groups[..n]
  {
  }

  method MakePlan(docs: seq<Doc>, limit: Option<nat>) returns (p: Plan)
    requires DistinctIds(docs)
    ensures p.docs == docs && Planned(p, limit)
  {
    var candidates, scoped := Classify(docs);
    var groups := GroupByKey(candidates);
    var batch := TakeBatch(groups, limit);
    RowsInBatch(groups, candidates, |batch|);
    RowsInBatch(groups, candidates, if batch == [] then 0 else |batch| - 1);
    SameBatchIds(groups, batch);
    var items := SkipBatchKeys(scoped, batch);
    var sweepGroups := GroupByKey(items);
    p := Plan(docs, candidates, scoped, groups, batch, items, sweepGroups);
  }

  /** The groups a run migrates: none in a dry run. */
  ghost function Executed(p: Plan, apply: bool): seq<PathGroup> {
    if apply then p.batch else []
  }

  lemma PlanStarts(scope: Scope, s0: State, p: Plan, limit: Option<nat>, apply: bool)
    requires Planned(p, limit) && FetchedOk(scope.window, p.docs, s0) && s0.rows.Keys <= s0.issued
    ensures BatchOk(scope, s0, p.batch, 0) && BatchOk(scope, s0, Executed(p, apply), 0)
    ensures BatchIds(p.batch, |p.batch|) <= ItemIds(p.candidates)
    ensures BatchIds(Executed(p, apply), |Executed(p, apply)|) <= ItemIds(p.candidates)
    ensures Settled(scope, s0) && s0.rows.Keys == s0.issued ==>
              NothingMovable(scope, s0, p.batch) && (scope.deleteSource ==> Swept(s0, p.sweepGroups, |p.sweepGroups|))
  {
    PlanIsOk(scope, s0, p.docs, p.candidates, p.groups, p.batch);
    EmptyPlan(scope, s0, p.candidates, p.groups, p.batch);
    if Settled(scope, s0) && s0.rows.Keys == s0.issued {
      SettledIsIdle(scope, s0, p.docs, p.scoped, p.batch, p.items, p.sweepGroups);
    }
  }

  /** After the migration the sweep's rows are still as fetched. */
  lemma PlanSweeps(scope: Scope, s0: State, s1: State, p: Plan, limit: Option<nat>, apply: bool, moved: set<nat>,
                   failures: seq<Failure>)
    requires Planned(p, limit) && FetchedOk(scope.window, p.docs, s0) && s0.rows.Keys <= s0.issued
    requires Handled(scope, s0, s1, Executed(p, apply), |Executed(p, apply)|, moved, failures)
    ensures SweepOk(scope, s1, p.sweepGroups)
  {
    PlanStarts(scope, s0, p, limit, apply);
    SweepPlanIsOk(scope, s0, s1, p.docs, p.candidates, p.scoped, Executed(p, apply), p.items, p.sweepGroups);
  }

  lemma PlanObjects(scope: Scope, s0: State, s1: State, s2: State, p: Plan, limit: Option<nat>, apply: bool,
                    moved: set<nat>,
                    failures: seq<Failure>, kept: nat, left: int)
    requires Planned(p, limit) && FetchedOk(scope.window, p.docs, s0) && s0.rows.Keys <= s0.issued
    requires Complete(scope.window, p.docs, s0) && LaidOut(scope.companies, p.docs)
    requires Handled(scope, s0, s1, Executed(p, apply), |Executed(p, apply)|, moved, failures)
    requires OnlySwept(s1, s2, p.sweepGroups)
    requires !apply ==> moved == {}
    requires apply && BatchLaidOut(scope.companies, p.batch) ==> |KeptKeys(s1, p.batch, |p.batch|, moved)| <= kept
    requires |LeftKeys(s2, p.sweepGroups, |p.sweepGroups|)| <= left
    ensures |LeftObjects(scope.window, s0, s2) - UnmovedKeys(p.candidates, moved)| <= left + kept
    ensures |UnmovedKeys(p.candidates, moved)| <= |p.candidates| - |moved|
  {
    PlanStarts(scope, s0, p, limit, apply);
    PlannedLaidOut(scope.companies, p, limit);
    if !apply {
      forall j | 0 <= j < |p.batch| ensures !(Ids(p.batch[j].docs) <= {}) {
        assert p.batch[j] == p.groups[j] && p.groups[j].docs[0] in p.groups[j].docs;
        assert p.batch[j].docs[0].id in Ids(p.batch[j].docs);
      }
      assert KeptKeys(s1, p.batch, |p.batch|, moved) == {};
    }
    ObjectsCounted(scope, s0, s1, s2, p, limit, moved, kept, left);
  }

  /** No fetched row is to be migrated, and no object is at a legacy key of one. */
  ghost predicate NothingSeen(docs: seq<Doc>, objects: map<string, Bytes>) {
    forall d :: d in docs ==> !Candidate(d.row) && (LegacyKey(d.row).Some? ==> LegacyKey(d.row).value !in objects)
  }

  lemma SomeCandidate(candidates: seq<Keyed>, docs: seq<Doc>)
    requires CandidatesOf(candidates, docs) && candidates != []
    ensures exists d :: d in docs && Candidate(d.row)
  {
    assert candidates[0] in candidates;
  }

  /** With nothing seen there are no candidates and no leftovers to sweep. */
  lemma NothingToPlan(scope: Scope, s: State, p: Plan, limit: Option<nat>)
    requires Planned(p, limit) && NothingSeen(p.docs, s.objects) && s.rows.Keys <= s.issued
    ensures p.candidates == [] && p.batch == [] && LeftKeys(s, p.sweepGroups, |p.sweepGroups|) == {}
  {
    if p.candidates != [] {
      SomeCandidate(p.candidates, p.docs);
      assert false;
    }
    EmptyPlan(scope, s, p.candidates, p.groups, p.batch);
    forall j | 0 <= j < |p.sweepGroups| ensures p.sweepGroups[j].key !in s.objects {
      var d := p.sweepGroups[j].docs[0];
      assert Keyed(p.sweepGroups[j].key, d) in p.items && d in p.docs;
    }
  }

  /** Once nothing is left on legacy keys, nothing is seen. */
  lemma SoundIsUnseen(window: Option<string>, docs: seq<Doc>, s: State)
    requires FetchedOk(window, docs, s) && s.rows.Keys == s.issued && GateSound(window, s, s)
    ensures NothingSeen(docs, s.objects)
  {
    forall d | d in docs ensures !Candidate(d.row) {
      assert Known(s, d);
      assert d.id in StillLegacy(window, s) <==> Candidate(d.row);
    }
  }

  /** The rows counted as migrated are, if still live, at their new keys. */
  lemma MovedDocs(scope: Scope, s0: State, s1: State, s2: State, p: Plan, limit: Option<nat>, apply: bool,
                  moved: set<nat>,
                  failures: seq<Failure>)
    requires Planned(p, limit) && FetchedOk(scope.window, p.docs, s0)
    requires Handled(scope, s0, s1, Executed(p, apply), |Executed(p, apply)|, moved, failures)
    requires RowsByOthers(scope.companies, s1, s2, {})
    ensures MovedRehomed(s2, p.docs, moved)
  {
    var batch := Executed(p, apply);
    forall d | d in p.docs && Candidate(d.row) && d.id in moved && d.id in s2.rows
      ensures s2.rows[d.id] == Rehomed(d.row)
    {
      assert Known(s0, d);
      assert d.id in BatchIds(batch, |batch|);
      var j, e :| 0 <= j < |batch| && e in batch[j].docs && e.id == d.id;
      assert batch[j] == p.groups[j] && Keyed(batch[j].key, e) in p.candidates;
      FetchedOnce(p.docs, d, e);
      assert MovedRehomed(s1, batch[j].docs, moved);
    }
  }

  lemma PlannedPromised(scope: Scope, start: State, p: Plan, limit: Option<nat>)
    requires Planned(p, limit) && AllPromised(scope, start, p.docs)
    ensures GroupsPromised(scope, start, p.batch) && GroupsPromised(scope, start, p.sweepGroups)
  {
    forall g | g in p.batch ensures AllPromised(scope, start, g.docs) {
      var i :| 0 <= i < |p.batch| && p.batch[i] == g;
      assert g == p.groups[i];
      assert forall d :: d in g.docs ==> Keyed(g.key, d) in p.candidates;
    }
    forall g | g in p.sweepGroups ensures AllPromised(scope, start, g.docs) {
      var i :| 0 <= i < |p.sweepGroups| && p.sweepGroups[i] == g;
      assert forall d :: d in g.docs ==> Keyed(g.key, d) in p.items;
    }
  }

  lemma PlanRows(scope: Scope, s0: State, s1: State, s2: State, p: Plan, limit: Option<nat>, apply: bool,
                 moved: set<nat>, failures: seq<Failure>)
    requires Planned(p, limit) && FetchedOk(scope.window, p.docs, s0) && s0.rows.Keys <= s0.issued
    requires Handled(scope, s0, s1, Executed(p, apply), |Executed(p, apply)|, moved, failures)
    requires RowsByOthers(scope.companies, s1, s2, {})
    ensures Complete(scope.window, p.docs, s0) ==> |StillLegacy(scope.window, s2)| <= |p.candidates| - |moved|
  {
    PlanStarts(scope, s0, p, limit, apply);
    RemainingRows(scope, s0, s1, s2, p.docs, p.candidates, Executed(p, apply), moved, failures);
  }

  lemma PlanSettles(scope: Scope, start: State, s0: State, s1: State, s2: State, p: Plan, moved: set<nat>,
                    failures: seq<Failure>)
    requires OnCourse(scope, start, s0) && OnCourse(scope, start, s1)
    requires Planned(p, None) && FetchedOk(scope.window, p.docs, s0) && Complete(scope.window, p.docs, s0)
    requires Handled(scope, s0, s1, p.batch, |p.batch|, moved, failures)
    requires BatchOk(scope, s1, p.batch, |p.batch|) && AllSettled(scope, s1, p.batch, |p.batch|)
    requires s2.rows == s1.rows && OnlySwept(s1, s2, p.sweepGroups)
    requires scope.deleteSource ==> Swept(s2, p.sweepGroups, |p.sweepGroups|)
    ensures Settled(scope, s2)
  {
    PlanStarts(scope, s0, p, None, true);
    RunSettles(scope, start, s0, s1, s2, p.docs, p.candidates, p.scoped, p.batch, p.items, p.sweepGroups);
  }

  // ----- which rows decide whether a copy is missing for an object that went -----

  /** The rows the run looked at before the object went: a batch looks at its candidates, the sweep at all. */
  ghost function LookedAt(p: Plan, key: string): set<nat> {
    set d | d in p.docs && (Candidate(d.row) || !IsBatchKey(p.batch, key)) :: d.id
  }

  /** For each object that went: all live rows that map to its key have copies if those not looked at have. */
  ghost predicate LossesDecided(p: Plan, start: State, s: State) {
    forall key :: key in start.objects && key !in s.objects ==>
      (AllHaveCopies(s, key, start.objects[key])
       <==> OthersHaveCopies(s, key, start.objects[key], LookedAt(p, key)))
  }

  /** For each object swept: all live rows that map to its key have copies if those born since the fetch have. */
  ghost predicate NewbornsDecide(p: Plan, start: State, fetched: State, s: State) {
    forall key :: key in start.objects && key !in s.objects && !IsBatchKey(p.batch, key) ==>
      (AllHaveCopies(s, key, start.objects[key])
       <==> OthersHaveCopies(s, key, start.objects[key], fetched.issued))
  }

  /** The states a run passes through: the start, after the fetch, after the batch, and at its end. */
  ghost predicate RunStates(scope: Scope, start: State, trace: seq<Entry>, k: nat, s1: State, p: Plan,
                            limit: Option<nat>) {
    && Initial(start) && Layout(scope.companies, start) && Trace(scope, start, trace) && k <= |trace|
    && Planned(p, limit) && FetchedOk(scope.window, p.docs, Reached(start, trace[..k]))
    && Reached(start, trace[..k]).objects == start.objects
    && OthersStay(start, s1, p.batch)
    && RowsByOthers(scope.companies, s1, Reached(start, trace), {})
    && SweptCovered(s1, Reached(start, trace), p.sweepGroups)
    && OnlySwept(s1, Reached(start, trace), p.sweepGroups)
  }

  lemma LookedAtIsCovered(scope: Scope, start: State, trace: seq<Entry>, k: nat, s1: State, p: Plan,
                          limit: Option<nat>, key: string, d: Doc)
    requires RunStates(scope, start, trace, k, s1, p, limit)
    requires key in start.objects && key !in Reached(start, trace).objects
    requires d in p.docs && (Candidate(d.row) || !IsBatchKey(p.batch, key))
    requires d.id in Reached(start, trace).rows && LegacyKey(Reached(start, trace).rows[d.id]) == Some(key)
    ensures HasCopy(Reached(start, trace), Reached(start, trace).rows[d.id], start.objects[key])
  {
    var s0, s := Reached(start, trace[..k]), Reached(start, trace);
    assert Known(s0, d);
    RowKept(scope, start, trace, k, d.id);
    if Candidate(d.row) {
      RehomedFacts(d.row);
      CandidateIsCovered(scope, start, trace, k, d, key);
    } else {
      hide Trace, Layout, LegacyKey, LegacyPathFor, IsCompanyScoped;
      KeyOfHome(d.row, key);
      assert Keyed(key, d) in p.scoped && Keyed(key, d) in p.items;
      var i :| 0 <= i < |p.sweepGroups| && p.sweepGroups[i].key == key && d in p.sweepGroups[i].docs;
      assert CopiesLeft(s, p.sweepGroups[i].docs, s1.objects[key]);
    }
  }

  lemma KeyOfHome(row: Row, key: string)
    requires !Candidate(row) && LegacyKey(row) == Some(key)
    ensures AlreadyScoped(row)
  {
  }

  lemma RunLosses(scope: Scope, start: State, trace: seq<Entry>, k: nat, s1: State, p: Plan, limit: Option<nat>)
    requires RunStates(scope, start, trace, k, s1, p, limit)
    ensures LossesDecided(p, start, Reached(start, trace))
    ensures scope.window.None? && Complete(None, p.docs, Reached(start, trace[..k])) ==>
              NewbornsDecide(p, start, Reached(start, trace[..k]), Reached(start, trace))
  {
    var s0, s := Reached(start, trace[..k]), Reached(start, trace);
    assert Initial(start) && Trace(scope, start, trace) && k <= |trace|;
    hide RunStates, LegacyKey, HasCopy, IsBatchKey, Trace;
    forall key, id | key in start.objects && key !in s.objects && id in LookedAt(p, key)
                     && id in s.rows && LegacyKey(s.rows[id]) == Some(key)
      ensures HasCopy(s, s.rows[id], start.objects[key])
    {
      var d :| d in p.docs && (Candidate(d.row) || !IsBatchKey(p.batch, key)) && d.id == id;
      LookedAtIsCovered(scope, start, trace, k, s1, p, limit, key, d);
    }
    if scope.window.None? && Complete(None, p.docs, s0) {
      forall key, id | key in start.objects && key !in s.objects && !IsBatchKey(p.batch, key)
                       && id in s0.issued && id in s.rows && LegacyKey(s.rows[id]) == Some(key)
        ensures id in LookedAt(p, key)
      {
        RowKept(scope, start, trace, k, id);
        HasPath(s.rows[id]);
        assert Doc(id, s0.rows[id]) in p.docs;
      }
    }
  }

  /** At the end of a run, `trace0` being its fetch and `s1` the state after the batch. */
  lemma RunDecided(store: Store, trace0: seq<Entry>, s1: State, p: Plan, limit: Option<nat>)
    requires store.Valid() && trace0 <= store.trace
    requires Planned(p, limit) && FetchedOk(store.scope.window, p.docs, Reached(store.start, trace0))
    requires OthersStay(Reached(store.start, trace0), s1, p.batch)
    requires RowsByOthers(store.scope.companies, s1, store.Now(), {}) && OnlySwept(s1, store.Now(), p.sweepGroups)
    requires Layout(store.scope.companies, store.start) ==> SweptCovered(s1, store.Now(), p.sweepGroups)
    ensures var s0 := Reached(store.start, trace0);
            Layout(store.scope.companies, store.start) && s0.objects == store.start.objects ==>
              && LossesDecided(p, store.start, store.Now())
              && (store.scope.window.None? && Complete(None, p.docs, s0) ==>
                    NewbornsDecide(p, store.start, s0, store.Now()))
  {
    hide Trace, Quiet, Layout, Planned, FetchedOk, OnlySwept, SweptCovered, RowsByOthers, LossesDecided,
         NewbornsDecide, Complete;
    var s0 := Reached(store.start, trace0);
    if Layout(store.scope.companies, store.start) && s0.objects == store.start.objects {
      assert store.trace[..|trace0|] == trace0;
      assert OthersStay(store.start, s1, p.batch);
      RunLosses(store.scope, store.start, store.trace, |trace0|, s1, p, limit);
    }
  }

  lemma HasPath(row: Row)
    requires LegacyKey(row).Some?
    ensures row.path.Some?
  {
  }

  /** Migrate the batch, or in a dry run leave it alone. */
  method ApplyBatch(store: Store, p: Plan, apply: bool, deleteSource: bool)
      returns (migratedRows: nat, sourcesRemoved: nat, sourcesKept: nat, failures: seq<Failure>, ghost moved: set<nat>)
    requires store.Valid() && BatchOk(store.scope, store.Now(), p.batch, 0) && BatchOk(store.scope, store.Now(), [], 0)
    requires GroupsPromised(store.scope, store.start, p.batch)
    requires Handled(store.scope, store.Now(), store.Now(), [], 0, {}, [])
    requires deleteSource == store.scope.deleteSource
    modifies store
    ensures store.Valid() && old(store.trace) <= store.trace
    ensures Handled(store.scope, old(store.Now()), store.Now(), Executed(p, apply), |Executed(p, apply)|, moved,
            failures)
    ensures |moved| == migratedRows && (!apply ==> moved == {})
    ensures store.faultless && apply ==> BatchUnmoved(store.Now(), p.batch, |p.batch|, moved)
    ensures apply && BatchLaidOut(store.scope.companies, p.batch) ==>
              |KeptKeys(store.Now(), p.batch, |p.batch|, moved)| <= sourcesKept
    ensures sourcesKept <= |FullKeys(p.batch, |p.batch|, moved)|
    ensures BatchLaidOut(store.scope.companies, p.batch) ==>
              Removals(old(store.Now()), store.Now(), p.batch, |p.batch|, sourcesRemoved, store.faultless)
    ensures store.faultless ==> old(store.faultless)
    ensures store.undisturbed ==> old(store.undisturbed)
    ensures apply ==> BatchOk(store.scope, store.Now(), p.batch, |p.batch|)
    ensures OthersStay(old(store.Now()), store.Now(), p.batch)
    ensures apply && store.Clean() && Sane(store) ==> AllSettled(store.scope, store.Now(), p.batch, |p.batch|)
    ensures store.Clean() && Sane(store) && NothingMovable(store.scope, old(store.Now()), p.batch) ==>
              store.writes == old(store.writes) && store.Now() == old(store.Now())
    ensures p.batch == [] || !apply ==>
              store.Now() == old(store.Now()) && migratedRows == 0 && sourcesKept == 0 && failures == []
    ensures !apply ==> store.writes == old(store.writes)
  {
    hide Trace, Quiet, Step, Licensed, OnCourse, Sane, BatchOk, Handled, KeptKeys, FullKeys, AllSettled, BatchLaidOut,
         NothingMovable;
    migratedRows, sourcesRemoved, sourcesKept, failures, moved := 0, 0, 0, [], {};
    assert store.objects.Keys - store.objects.Keys == {};
    if apply {
      migratedRows, sourcesRemoved, sourcesKept, failures, moved := MigrateBatch(store, p.batch, deleteSource);
    }
  }

  /** The sweep took off no more than went, without faults exactly that, and never more than the limit. */
  ghost predicate SweepCounted(s1: State, s2: State, removed: int, limit: Option<nat>, faultless: bool) {
    && 0 <= removed <= |s1.objects.Keys - s2.objects.Keys|
    && (limit.Some? ==> removed <= limit.value)
    && (faultless ==> removed == |s1.objects.Keys - s2.objects.Keys|)
  }

  /** The objects that went though the batch did not have them as a source. */
  ghost function SweptAway(batch: seq<PathGroup>, before: set<string>, after: set<string>): set<string> {
    set key | key in before && key !in after && forall g :: g in batch ==> g.key != key
  }

  lemma RemovedCounted(scope: Scope, s0: State, s1: State, s2: State, p: Plan, limit: Option<nat>,
                       sourcesRemoved: nat, faultless1: bool, faultless2: bool, removed: nat)
    requires Planned(p, limit) && OthersStay(s0, s1, p.batch) && OnlySwept(s1, s2, p.sweepGroups)
    requires BatchLaidOut(scope.companies, p.batch) ==>
               Removals(s0, s1, p.batch, |p.batch|, sourcesRemoved, faultless1)
    requires SweepCounted(s1, s2, removed - sourcesRemoved, limit, faultless2) && (faultless2 ==> faultless1)
    ensures limit.Some? && faultless2 ==> |SweptAway(p.batch, s0.objects.Keys, s2.objects.Keys)| <= limit.value
    ensures LaidOut(scope.companies, p.docs) ==>
              && removed <= |s0.objects.Keys - s2.objects.Keys|
              && (faultless2 ==> removed == |s0.objects.Keys - s2.objects.Keys|)
  {
    SweptAwayWasSwept(s0, s1, s2, p.batch);
    hide OthersStay, OnlySwept, Planned, SweptAway, BatchLaidOut, LaidOut;
    if LaidOut(scope.companies, p.docs) {
      PlannedLaidOut(scope.companies, p, limit);
      SweptWasThere(scope.companies, s0, s1, s2, p, limit);
      GoneTwice(s0.objects.Keys, s1.objects.Keys, s2.objects.Keys);
    }
  }

  lemma SweptAwayWasSwept(s0: State, s1: State, s2: State, batch: seq<PathGroup>)
    requires OthersStay(s0, s1, batch)
    ensures |SweptAway(batch, s0.objects.Keys, s2.objects.Keys)| <= |s1.objects.Keys - s2.objects.Keys|
  {
    SubsetSize(SweptAway(batch, s0.objects.Keys, s2.objects.Keys), s1.objects.Keys - s2.objects.Keys);
  }

  lemma GoneTwice(s0: set<string>, s1: set<string>, s2: set<string>)
    requires s1 - s2 <= s0 && s2 <= s1
    ensures |s0 - s2| == |s0 - s1| + |s1 - s2|
  {
    assert s0 - s2 == (s0 - s1) + (s1 - s2);
  }

  /** What is swept has not been put there by the batch. */
  lemma SweptWasThere(companies: set<string>, s0: State, s1: State, s2: State, p: Plan, limit: Option<nat>)
    requires Planned(p, limit) && LaidOut(companies, p.docs) && BatchLaidOut(companies, p.batch)
    requires OthersStay(s0, s1, p.batch) && OnlySwept(s1, s2, p.sweepGroups)
    ensures s1.objects.Keys - s2.objects.Keys <= s0.objects.Keys && s2.objects.Keys <= s1.objects.Keys
  {
    forall key | key in s1.objects && key !in s2.objects ensures key in s0.objects {
      var g :| g in p.sweepGroups && g.key == key;
      var i :| 0 <= i < |p.sweepGroups| && p.sweepGroups[i] == g;
      var e := g.docs[0];
      assert e in g.docs && Keyed(g.key, e) in p.items && LayoutOk(companies, e.row);
      assert UploaderScoped(companies, key);
      forall j, d | 0 <= j < |p.batch| && d in p.batch[j].docs && Candidate(d.row) ensures Target(d.row) != key {
        assert LayoutOk(companies, d.row);
        RehomedFacts(d.row);
      }
    }
  }

  /** What the report owes the bucket: only keys of unmigrated rows go uncounted, and an open gate is right. */
  ghost predicate ReportOk(window: Option<string>, report: Report, p: Plan, moved: set<nat>, s0: State, s: State) {
    && |UnmovedKeys(p.candidates, moved)| <= report.legacyRowsRemaining
    && |LeftObjects(window, s0, s) - UnmovedKeys(p.candidates, moved)| <= report.legacyObjectsRemaining
    && |LeftObjects(window, s0, s)| <= report.legacyRowsRemaining + report.legacyObjectsRemaining
    && (report.gateOpen ==> GateSound(window, s0, s))
  }

  /** How the report came about. */
  ghost predicate ReportFrom(report: Report, p: Plan, moved: set<nat>) {
    && report.migratedRows == |moved|
    && report.legacyRowsRemaining == |p.candidates| - |moved|
    && 0 <= report.legacyObjectsRemaining <= |FullKeys(p.batch, |p.batch|, moved)| + |p.sweepGroups|
    && (report.gateOpen <==>
          report.legacyRowsRemaining == 0 && report.legacyObjectsRemaining == 0 && report.failures == [])
  }

  /** After the fetch: plan, migrate a batch, sweep, and report. */
  method MigrateAndSweep(store: Store, docs: seq<Doc>, apply: bool, deleteSource: bool, limit: Option<nat>)
      returns (report: Report, ghost p: Plan, ghost moved: set<nat>)
    requires store.Valid() && FetchedOk(store.scope.window, docs, store.Now())
             && AllPromised(store.scope, store.start, docs)
    requires deleteSource == store.scope.deleteSource && (deleteSource ==> apply)
    modifies store
    ensures store.Valid() && old(store.trace) <= store.trace
    ensures p.docs == docs && Planned(p, limit) && ReportFrom(report, p, moved)
    ensures NoneIsSilent(Executed(p, apply), moved, report.failures)
    ensures store.faultless && apply ==> BatchUnmoved(store.Now(), p.batch, |p.batch|, moved)
    ensures MovedRehomed(store.Now(), docs, moved)
    ensures Complete(store.scope.window, docs, old(store.Now())) ==>
              |StillLegacy(store.scope.window, store.Now())| <= report.legacyRowsRemaining
    ensures LaidOut(store.scope.companies, docs) && Complete(store.scope.window, docs, old(store.Now())) ==>
              ReportOk(store.scope.window, report, p, moved, old(store.Now()), store.Now())
    ensures store.faultless ==> old(store.faultless)
    ensures store.undisturbed ==> old(store.undisturbed)
    ensures store.Clean() && Sane(store) && Complete(store.scope.window, docs, old(store.Now())) && apply
            && limit.None? ==>
              Settled(store.scope, store.Now())
    ensures store.Clean() && Sane(store) && Settled(store.scope, old(store.Now())) ==>
              store.writes == old(store.writes) && store.Now() == old(store.Now())
    ensures !apply ==> store.writes == old(store.writes) && store.objects == old(store.objects)
    ensures store.faultless && NothingSeen(docs, old(store.objects)) ==> report.gateOpen
    // the removals reported are those made, and the limit caps the sweep
    ensures LaidOut(store.scope.companies, docs) ==>
              && report.legacyObjectsRemoved <= |old(store.objects).Keys - store.objects.Keys|
              && (store.faultless ==>
                    report.legacyObjectsRemoved == |old(store.objects).Keys - store.objects.Keys|)
    ensures limit.Some? && store.faultless ==>
              |SweptAway(p.batch, old(store.objects).Keys, store.objects.Keys)| <= limit.value
    // whether a copy is missing for an object that went is up to the rows the run did not look at
    ensures Layout(store.scope.companies, store.start) && old(store.objects) == store.start.objects ==>
              && LossesDecided(p, store.start, store.Now())
              && (store.scope.window.None? && Complete(None, docs, old(store.Now())) ==>
                    NewbornsDecide(p, store.start, old(store.Now()), store.Now()))
  {
    hide Trace, Quiet, Step, Licensed, UploaderScoped, LayoutOk, OnCourse, LegacyKey, Sane, GroupFrame, GroupSettled,
         Movable;
    hide BatchOk, Handled, KeptKeys, LeftKeys, FullKeys, LeftObjects, UnmovedKeys, AllSettled, BatchLaidOut, Swept,
         SweepOk;
    hide GroupsOf, Candidate, AlreadyScoped, OnlySwept, ReportFrom, ReportOk, MovedRehomed, NothingSeen,
         GroupsPromised, AllPromised;
    hide FetchedOk, Complete, LaidOut, GateSound, StillLegacy, Settled, Disposable, NothingMovable, IsBatchKey, Planned;
    hide OthersStay, SweptCovered, LossesDecided, NewbornsDecide, RunStates, Layout, RowsByOthers, Removals,
         SweepCounted, SweptAway, NoneIsSilent, BatchUnmoved;
    ghost var scope, start, s0, trace0 := store.scope, store.start, store.Now(), store.trace;
    FetchedDistinct(scope.window, docs, s0);
    var plan := MakePlan(docs, limit);
    p := plan;
    PlanStarts(scope, s0, p, limit, apply);
    PlannedPromised(scope, start, p, limit);
    if store.undisturbed && Sane(store) { CourseHolds(store); }
    if NothingSeen(docs, s0.objects) { NothingToPlan(scope, s0, p, limit); }
    var migratedRows, sourcesRemoved, sourcesKept, failures;
    PlannedGroups(p, limit);
    EmptyPlan(scope, s0, p.candidates, p.groups, p.batch);
    migratedRows, sourcesRemoved, sourcesKept, failures, moved := ApplyBatch(store, plan, apply, deleteSource);
    ghost var s1 := store.Now();
    PlanSweeps(scope, s0, s1, p, limit, apply, moved, failures);
    report := FinishRun(store, plan, deleteSource, limit, s0, trace0, apply, moved, migratedRows, sourcesRemoved,
                        sourcesKept, failures);
  }

  /** The sweep and the report, and what holds at the end of the run. */
  method FinishRun(store: Store, p: Plan, deleteSource: bool, limit: Option<nat>, ghost s0: State,
                   ghost trace0: seq<Entry>, ghost apply: bool, ghost moved: set<nat>, migratedRows: nat,
                   sourcesRemoved: nat, sourcesKept: nat, failures: seq<Failure>)
      returns (report: Report)
    requires store.Valid() && SweepOk(store.scope, store.Now(), p.sweepGroups)
    requires deleteSource == store.scope.deleteSource && GroupsPromised(store.scope, store.start, p.sweepGroups)
    requires Planned(p, limit) && FetchedOk(store.scope.window, p.docs, s0) && s0.rows.Keys <= s0.issued
    requires trace0 <= store.trace && Reached(store.start, trace0) == s0
    requires Handled(store.scope, s0, store.Now(), Executed(p, apply), |Executed(p, apply)|, moved, failures)
    requires |moved| == migratedRows && (!apply ==> moved == {})
    requires apply && BatchLaidOut(store.scope.companies, p.batch) ==>
               |KeptKeys(store.Now(), p.batch, |p.batch|, moved)| <= sourcesKept
    requires sourcesKept <= |FullKeys(p.batch, |p.batch|, moved)|
    requires OthersStay(s0, store.Now(), p.batch)
    requires store.faultless && apply ==> BatchUnmoved(store.Now(), p.batch, |p.batch|, moved)
    requires BatchLaidOut(store.scope.companies, p.batch) ==>
               Removals(s0, store.Now(), p.batch, |p.batch|, sourcesRemoved, store.faultless)
    requires apply ==> BatchOk(store.scope, store.Now(), p.batch, |p.batch|)
    requires apply && store.Clean() && Sane(store) ==>
               && AllSettled(store.scope, store.Now(), p.batch, |p.batch|)
               && OnCourse(store.scope, store.start, s0)
    modifies store
    ensures store.Valid() && old(store.trace) <= store.trace
    ensures !deleteSource ==> store.writes == old(store.writes) && store.objects == old(store.objects)
    ensures store.faultless ==> old(store.faultless)
    ensures store.undisturbed ==>
              old(store.undisturbed) && store.rows == old(store.rows) && store.issued == old(store.issued)
    ensures store.Clean() && Swept(old(store.Now()), p.sweepGroups, |p.sweepGroups|) ==>
              store.writes == old(store.writes) && store.Now() == old(store.Now())
    ensures ReportFrom(report, p, moved) && MovedRehomed(store.Now(), p.docs, moved)
    ensures NoneIsSilent(Executed(p, apply), moved, report.failures)
    ensures store.faultless && apply ==> BatchUnmoved(store.Now(), p.batch, |p.batch|, moved)
    ensures Complete(store.scope.window, p.docs, s0) ==>
              |StillLegacy(store.scope.window, store.Now())| <= report.legacyRowsRemaining
    ensures LaidOut(store.scope.companies, p.docs) && Complete(store.scope.window, p.docs, s0) ==>
              ReportOk(store.scope.window, report, p, moved, s0, store.Now())
    ensures store.faultless && p.candidates == [] && migratedRows == 0 && sourcesKept == 0 && failures == []
            && LeftKeys(old(store.Now()), p.sweepGroups, |p.sweepGroups|) == {} ==>
              report.gateOpen
    ensures store.Clean() && Sane(store) && Complete(store.scope.window, p.docs, s0) && apply && limit.None? ==>
              Settled(store.scope, store.Now())
    ensures LaidOut(store.scope.companies, p.docs) ==>
              && report.legacyObjectsRemoved <= |s0.objects.Keys - store.objects.Keys|
              && (store.faultless ==> report.legacyObjectsRemoved == |s0.objects.Keys - store.objects.Keys|)
    ensures limit.Some? && store.faultless ==>
              |SweptAway(p.batch, s0.objects.Keys, store.objects.Keys)| <= limit.value
    ensures Layout(store.scope.companies, store.start) && s0.objects == store.start.objects ==>
              && LossesDecided(p, store.start, store.Now())
              && (store.scope.window.None? && Complete(None, p.docs, s0) ==>
                    NewbornsDecide(p, store.start, s0, store.Now()))
  {
    hide Trace, Quiet, Step, Licensed, UploaderScoped, LayoutOk, OnCourse, LegacyKey, Sane, Movable;
    hide BatchOk, Handled, KeptKeys, LeftKeys, FullKeys, LeftObjects, UnmovedKeys, AllSettled, BatchLaidOut, Swept,
         SweepOk, GroupsOf;
    hide OnlySwept, ReportFrom, ReportOk, MovedRehomed, AllPromised, GroupsPromised;
    hide FetchedOk, Complete, LaidOut, GateSound, StillLegacy, Settled, IsBatchKey, Planned, SweptCovered, Layout;
    hide OthersStay, LossesDecided, NewbornsDecide, RowsByOthers, Removals, SweepCounted, SweptAway, Executed,
         NoneIsSilent, BatchUnmoved;
    ghost var scope, start, s1, faultless1 := store.scope, store.start, store.Now(), store.faultless;
    if store.undisturbed && Sane(store) { CourseHolds(store); }
    report := SweepAndReport(store, p, deleteSource, limit, s0, apply, moved, migratedRows, sourcesRemoved,
                             sourcesKept, failures);
    if store.faultless && apply { BatchUnmovedLater(scope.companies, s1, store.Now(), p.batch, moved); }
    RemovedCounted(scope, s0, s1, store.Now(), p, limit, sourcesRemoved, faultless1, store.faultless,
                   report.legacyObjectsRemoved);
    if store.Clean() && Sane(store) && Complete(scope.window, p.docs, s0) && apply && limit.None? {
      ApplyIsBatch(p, apply);
      PlanSettles(scope, start, s0, s1, store.Now(), p, moved, failures);
    }
    RunDecided(store, trace0, s1, p, limit);
  }

  lemma ApplyIsBatch(p: Plan, apply: bool)
    ensures apply ==> Executed(p, apply) == p.batch
  {
  }

  /** Sweep what this run did not migrate, then report. */
  method SweepAndReport(store: Store, p: Plan, deleteSource: bool, limit: Option<nat>, ghost s0: State,
                        ghost apply: bool,
                        ghost moved: set<nat>, migratedRows: nat, sourcesRemoved: nat, sourcesKept: nat,
                        failures: seq<Failure>)
      returns (report: Report)
    requires store.Valid() && SweepOk(store.scope, store.Now(), p.sweepGroups)
    requires deleteSource == store.scope.deleteSource && GroupsPromised(store.scope, store.start, p.sweepGroups)
    requires Planned(p, limit) && FetchedOk(store.scope.window, p.docs, s0) && s0.rows.Keys <= s0.issued
    requires Handled(store.scope, s0, store.Now(), Executed(p, apply), |Executed(p, apply)|, moved, failures)
    requires |moved| == migratedRows && (!apply ==> moved == {})
    requires apply && BatchLaidOut(store.scope.companies, p.batch) ==>
               |KeptKeys(store.Now(), p.batch, |p.batch|, moved)| <= sourcesKept
    requires sourcesKept <= |FullKeys(p.batch, |p.batch|, moved)|
    modifies store
    ensures store.Valid() && old(store.trace) <= store.trace
    ensures OnlySwept(old(store.Now()), store.Now(), p.sweepGroups)
    ensures !deleteSource ==> store.writes == old(store.writes) && store.objects == old(store.objects)
    ensures store.faultless ==> old(store.faultless)
    ensures store.undisturbed ==>
              old(store.undisturbed) && store.rows == old(store.rows) && store.issued == old(store.issued)
    ensures store.Clean() && Sane(store) && deleteSource && limit.None? ==>
              Swept(store.Now(), p.sweepGroups, |p.sweepGroups|)
    ensures store.Clean() && Swept(old(store.Now()), p.sweepGroups, |p.sweepGroups|) ==>
              store.writes == old(store.writes) && store.Now() == old(store.Now())
    ensures RowsByOthers(store.scope.companies, old(store.Now()), store.Now(), {})
    ensures SweepCounted(old(store.Now()), store.Now(), report.legacyObjectsRemoved - sourcesRemoved, limit,
                         store.faultless)
    ensures Layout(store.scope.companies, store.start) ==>
              SweptCovered(old(store.Now()), store.Now(), p.sweepGroups)
    ensures ReportFrom(report, p, moved) && MovedRehomed(store.Now(), p.docs, moved)
    ensures NoneIsSilent(Executed(p, apply), moved, report.failures)
    ensures Complete(store.scope.window, p.docs, s0) ==>
              |StillLegacy(store.scope.window, store.Now())| <= report.legacyRowsRemaining
    ensures LaidOut(store.scope.companies, p.docs) && Complete(store.scope.window, p.docs, s0) ==>
              ReportOk(store.scope.window, report, p, moved, s0, store.Now())
    ensures store.faultless && p.candidates == [] && migratedRows == 0 && sourcesKept == 0 && failures == []
            && LeftKeys(old(store.Now()), p.sweepGroups, |p.sweepGroups|) == {} ==>
              report.gateOpen
  {
    hide Trace, Quiet, Step, Licensed, UploaderScoped, LayoutOk, OnCourse, LegacyKey, Sane, Movable;
    hide BatchOk, Handled, KeptKeys, LeftKeys, FullKeys, LeftObjects, UnmovedKeys, AllSettled, BatchLaidOut, Swept,
         SweepOk, GroupsOf;
    hide OnlySwept, ReportFrom, ReportOk, MovedRehomed, AllPromised;
    hide FetchedOk, Complete, LaidOut, GateSound, StillLegacy, Settled, IsBatchKey, Planned, SweptCovered, Layout,
         NoneIsSilent, Executed;
    ghost var s1 := store.Now();
    PlannedKeys(p, limit);
    var keysWithLeftovers, objectsRemoved, sweepFailures :=
      SweepLegacyObjects(store, p.sweepGroups, deleteSource, limit);
    MovedDocs(store.scope, s0, s1, store.Now(), p, limit, apply, moved, failures);
    report := Tally(store.scope, p, limit, s0, s1, store.Now(), apply, moved, failures,
                    migratedRows, sourcesRemoved, sourcesKept, keysWithLeftovers, objectsRemoved,
                    failures + sweepFailures);
    MoreReports(store.scope, s0, s1, Executed(p, apply), moved, failures, sweepFailures);
  }

  /** The counters and the gate. */
  method Tally(ghost scope: Scope, p: Plan, ghost limit: Option<nat>, ghost s0: State, ghost s1: State, ghost s2: State,
               ghost apply: bool, ghost moved: set<nat>, ghost failures1: seq<Failure>,
               migratedRows: nat, sourcesRemoved: nat, sourcesKept: nat, keysWithLeftovers: nat, objectsRemoved: nat,
               failures: seq<Failure>)
      returns (report: Report)
    requires Planned(p, limit) && FetchedOk(scope.window, p.docs, s0) && s0.rows.Keys <= s0.issued
    requires Handled(scope, s0, s1, Executed(p, apply), |Executed(p, apply)|, moved, failures1)
    requires RowsByOthers(scope.companies, s1, s2, {}) && OnlySwept(s1, s2, p.sweepGroups)
    requires |moved| == migratedRows && (!apply ==> moved == {})
    requires apply && BatchLaidOut(scope.companies, p.batch) ==>
               |KeptKeys(s1, p.batch, |p.batch|, moved)| <= sourcesKept
    requires sourcesKept <= |FullKeys(p.batch, |p.batch|, moved)|
    requires |LeftKeys(s2, p.sweepGroups, |p.sweepGroups|)| <= keysWithLeftovers - objectsRemoved <= |p.sweepGroups|
    ensures report.failures == failures && ReportFrom(report, p, moved)
    ensures report.legacyObjectsRemoved == sourcesRemoved + objectsRemoved
    ensures Complete(scope.window, p.docs, s0) ==> |StillLegacy(scope.window, s2)| <= report.legacyRowsRemaining
    ensures LaidOut(scope.companies, p.docs) && Complete(scope.window, p.docs, s0) ==>
              ReportOk(scope.window, report, p, moved, s0, s2)
    ensures p.candidates == [] && migratedRows == 0 && sourcesKept == 0 && keysWithLeftovers == 0 && failures == [] ==>
              report.gateOpen
  {
    hide Planned, FetchedOk, Handled, RowsByOthers, OnlySwept, BatchLaidOut, KeptKeys, LeftKeys, FullKeys, LeftObjects,
         UnmovedKeys;
    hide StillLegacy, GateSound, Complete, LaidOut;
    PlanRows(scope, s0, s1, s2, p, limit, apply, moved, failures1);
    var rowsRemaining := |p.candidates| - migratedRows;
    var objectsRemaining := keysWithLeftovers - objectsRemoved + sourcesKept;
    if LaidOut(scope.companies, p.docs) && Complete(scope.window, p.docs, s0) {
      PlanObjects(scope, s0, s1, s2, p, limit, apply, moved, failures1, sourcesKept,
          keysWithLeftovers - objectsRemoved);
      CountersAdd(LeftObjects(scope.window, s0, s2), UnmovedKeys(p.candidates, moved), rowsRemaining, objectsRemaining);
      if rowsRemaining == 0 && objectsRemaining == 0 {
        NothingLeftIsSound(scope.window, s0, s2, UnmovedKeys(p.candidates, moved));
      }
    }
    report := Report(migratedRows, rowsRemaining, objectsRemaining, sourcesRemoved + objectsRemoved, failures,
                     rowsRemaining == 0 && objectsRemaining == 0 && failures == []);
  }

  lemma PlannedKeys(p: Plan, limit: Option<nat>)
    requires Planned(p, limit)
    ensures DistinctKeys(p.sweepGroups)
  {
  }

  lemma PlannedGroups(p: Plan, limit: Option<nat>)
    requires Planned(p, limit)
    ensures GroupsOf(p.groups, p.candidates) && p.batch <= p.groups
  {
  }

  lemma PlannedLaidOut(companies: set<string>, p: Plan, limit: Option<nat>)
    requires Planned(p, limit) && LaidOut(companies, p.docs)
    ensures BatchLaidOut(companies, p.batch)
  {
    BatchIsLaidOut(companies, p.docs, p.candidates, p.groups, p.batch);
  }

  /** A batch that was not run, and one there was nothing for. */
  lemma EmptyPlan(scope: Scope, s0: State, candidates: seq<Keyed>, groups: seq<PathGroup>, batch: seq<PathGroup>)
    requires GroupsOf(groups, candidates) && batch <= groups && s0.rows.Keys <= s0.issued
    ensures BatchOk(scope, s0, [], 0) && BatchIds([], 0) <= ItemIds(candidates)
    ensures Handled(scope, s0, s0, [], 0, {}, [])
    ensures candidates == [] ==> batch == []
  {
    GroupsNeedItems(groups, candidates);
  }

  lemma BatchIsLaidOut(companies: set<string>, docs: seq<Doc>, candidates: seq<Keyed>, groups: seq<PathGroup>,
                       batch: seq<PathGroup>)
    requires LaidOut(companies, docs) && CandidatesOf(candidates, docs) && GroupsOf(groups, candidates)
             && batch <= groups
    ensures BatchLaidOut(companies, batch)
  {
    forall i, d | 0 <= i < |batch| && d in batch[i].docs ensures LayoutOk(companies, d.row) {
      assert batch[i] == groups[i];
      assert Keyed(groups[i].key, d) in candidates;
    }
  }

  lemma RemainingRows(scope: Scope, s0: State, s1: State, s2: State, docs: seq<Doc>, candidates: seq<Keyed>,
                      batch: seq<PathGroup>, moved: set<nat>, failures: seq<Failure>)
    requires CandidatesOf(candidates, docs) && BatchOk(scope, s0, batch, 0)
    requires BatchIds(batch, |batch|) <= ItemIds(candidates)
    requires Handled(scope, s0, s1, batch, |batch|, moved, failures)
    requires RowsByOthers(scope.companies, s1, s2, {})
    ensures Complete(scope.window, docs, s0) ==> |StillLegacy(scope.window, s2)| <= |candidates| - |moved|
  {
    if Complete(scope.window, docs, s0) {
      RowsCounted(scope, s0, s1, docs, candidates, batch, moved, failures);
      SubsetSize(StillLegacy(scope.window, s2), StillLegacy(scope.window, s1));
    }
  }

  lemma RunSettles(scope: Scope, start: State, s0: State, s1: State, s: State, docs: seq<Doc>, candidates: seq<Keyed>,
                   scoped: seq<Keyed>, batch: seq<PathGroup>, items: seq<Keyed>, sweepGroups: seq<PathGroup>)
    requires OnCourse(scope, start, s0) && OnCourse(scope, start, s1)
    requires FetchedOk(scope.window, docs, s0) && Complete(scope.window, docs, s0)
    requires CandidatesOf(candidates, docs) && ScopedOf(scoped, docs)
    requires GroupsOf(batch, candidates) && GroupsOf(sweepGroups, items)
    requires BatchOk(scope, s0, batch, 0)
    requires forall it :: it in items <==> it in scoped && !IsBatchKey(batch, it.key)
    requires RowsByOthers(scope.companies, s0, s1, BatchIds(batch, |batch|)) && BatchOk(scope, s1, batch, |batch|)
    requires AllSettled(scope, s1, batch, |batch|)
    requires s.rows == s1.rows && OnlySwept(s1, s, sweepGroups)
    requires scope.deleteSource ==> Swept(s, sweepGroups, |sweepGroups|)
    ensures Settled(scope, s)
  {
    UnlimitedCovers(candidates, batch);
    SweptKeysAreLegacy(scope, s0, docs, scoped, items, sweepGroups);
    forall id ensures !Movable(scope.window, s, id) {
      NothingMovableAfter(scope, start, s0, s1, s, docs, candidates, batch, id);
    }
    if scope.deleteSource {
      forall i, d | 0 <= i < |batch| && d in batch[i].docs ensures Known(s0, d) {
        assert GroupOk(scope, s0, batch[i].key, batch[i].docs);
      }
      forall key | key in s.objects ensures !Disposable(scope.window, s, key) {
        NothingDisposableAfter(scope, start, s0, s1, s, docs, candidates, scoped, batch, batch, items, sweepGroups,
            key);
      }
    }
  }

  lemma SweptKeysAreLegacy(scope: Scope, s0: State, docs: seq<Doc>, scoped: seq<Keyed>, items: seq<Keyed>,
                           sweepGroups: seq<PathGroup>)
    requires Layout(scope.companies, s0) && s0.rows.Keys == s0.issued
    requires FetchedOk(scope.window, docs, s0) && ScopedOf(scoped, docs)
    requires (forall it :: it in items ==> it in scoped) && GroupsOf(sweepGroups, items)
    ensures forall g :: g in sweepGroups ==> UploaderScoped(scope.companies, g.key)
  {
    forall g | g in sweepGroups ensures UploaderScoped(scope.companies, g.key) {
      var i :| 0 <= i < |sweepGroups| && sweepGroups[i] == g;
      var d := g.docs[0];
      assert d in g.docs && Keyed(g.key, d) in items && Known(s0, d);
      assert LayoutOk(scope.companies, s0.rows[d.id]);
    }
  }

  lemma FetchedDistinct(window: Option<string>, docs: seq<Doc>, s: State)
    requires FetchedOk(window, docs, s)
    ensures DistinctIds(docs)
  {
  }

  /** Every state a run goes through, so every state it can be killed in, keeps the documents. */
  ghost predicate RetainedThroughout(store: Store)
    reads store
  {
    forall k :: 0 <= k <= |store.trace| ==> Retained(store.start, Reached(store.start, store.trace[..k]))
  }

  lemma RunRetains(store: Store)
    requires store.Valid()
    ensures RetainedThroughout(store)
  {
    forall k | 0 <= k <= |store.trace|
      ensures Retained(store.start, Reached(store.start, store.trace[..k]))
    {
      PrefixIsTrace(store.scope, store.start, store.trace, k);
      EveryReachableStateRetains(store.scope, store.start, store.trace[..k]);
    }
  }

  /** One run. `None`: it stopped while fetching. `pages` bounds the requests it lived to make. */
  method Run(store: Store, apply: bool, deleteSource: bool, limit: Option<nat>, pages: nat)
      returns (report: Option<Report>, ghost requests: seq<nat>, ghost fetched: nat, ghost p: Plan,
          ghost moved: set<nat>)
    requires store.Valid() && store.Clean() && store.trace == [] && store.writes == 0
    requires deleteSource == store.scope.deleteSource && (deleteSource ==> apply)
    requires limit.Some? ==> limit.value > 0
    modifies store
    ensures store.Valid() && RetainedThroughout(store)
    // the plan is made from what the requests were answered with, the last of them after `fetched` steps
    ensures fetched <= |store.trace| && forall n :: n in requests ==> n <= fetched
    ensures report.Some? ==>
              && requests != [] && requests[|requests| - 1] == fetched
              && Planned(p, limit) && p.docs == Read(store.scope.window, Tables(store.start, store.trace, requests))
              && ReportFrom(report.value, p, moved) && MovedRehomed(store.Now(), p.docs, moved)
              && (apply ==> NoneIsSilent(p.batch, moved, report.value.failures))
              && (apply && store.faultless ==> BatchUnmoved(store.Now(), p.batch, |p.batch|, moved))
    // no leftover goes uncounted and an open gate is right, unless a row already read was gone at a later request
    ensures report.Some? && ReadRowsStay(store.scope.window, Tables(store.start, store.trace, requests)) ==>
              |StillLegacy(store.scope.window, store.Now())| <= report.value.legacyRowsRemaining
    ensures report.Some? && Layout(store.scope.companies, store.start)
            && ReadRowsStay(store.scope.window, Tables(store.start, store.trace, requests)) ==>
              ReportOk(store.scope.window, report.value, p, moved, Reached(store.start, store.trace[..fetched]),
                  store.Now())
    // whether a copy is missing for an object that went is up to the rows the run did not look at: without
    // `--company`, and with no row read gone at a later request, for a swept object those born since the fetch
    ensures report.Some? && Layout(store.scope.companies, store.start) ==>
              && LossesDecided(p, store.start, store.Now())
              && (store.scope.window.None? && ReadRowsStay(None, Tables(store.start, store.trace, requests)) ==>
                    NewbornsDecide(p, store.start, Reached(store.start, store.trace[..fetched]), store.Now()))
    // no more removals are reported than were made, without faults exactly those, and the limit caps the sweep
    ensures report.Some? && Layout(store.scope.companies, store.start) ==>
              && report.value.legacyObjectsRemoved <= |store.start.objects.Keys - store.objects.Keys|
              && (store.faultless ==>
                    report.value.legacyObjectsRemoved == |store.start.objects.Keys - store.objects.Keys|)
    ensures report.Some? && store.faultless && limit.Some? ==>
              |SweptAway(p.batch, store.start.objects.Keys, store.objects.Keys)| <= limit.value
    // a fault-free run that may make as many requests as the table has pages comes to its report
    ensures store.faultless
            && pages * PAGE_SIZE > |Listing(store.scope.window, Reached(store.start, store.trace[..fetched]).rows)| ==>
              report.Some?
    ensures store.Clean() && pages * PAGE_SIZE > |Listing(store.scope.window, store.start.rows)| ==> report.Some?
    // a fault-free, undisturbed, unlimited run does all there is to do, and a second one nothing
    ensures report.Some? && store.Clean() && Sane(store) && apply && limit.None? ==>
              store.Now() == Final(store.scope, store.start) && Settled(store.scope, store.Now())
    ensures store.Clean() && Sane(store) && Settled(store.scope, store.start) ==>
              store.writes == 0 && store.Now() == store.start
    ensures !apply ==> store.writes == 0
    // with nothing seen on legacy keys a fault-free run of any kind opens the gate
    ensures report.Some? && store.faultless && NothingSeen(p.docs, store.start.objects) ==> report.value.gateOpen
    ensures report.Some? && store.Clean() && GateSound(store.scope.window, store.start, store.start) ==>
              report.value.gateOpen
  {
    hide Trace, Quiet, Step, Licensed, UploaderScoped, LayoutOk, Layout, OnCourse, Sane, Movable, Final, Settled,
         Listing, Read, Tables;
    hide FetchedOk, Complete, LaidOut, ReadRowsStay, Planned, ReportFrom, ReportOk, MovedRehomed, NothingSeen,
         GateSound, AllPromised, LossesDecided, NewbornsDecide;
    hide StillLegacy, IsBatchKey, SweptAway, NoneIsSilent, BatchUnmoved, Executed;
    p, moved := Plan([], [], [], [], [], [], []), {};
    var docs;
    docs, requests := FetchAllDocuments(store, store.scope.window, pages);
    ghost var s0, trace0 := store.Now(), store.trace;
    fetched := |trace0|;
    report := None;
    assert store.trace[..fetched] == trace0;
    if docs.Some? {
      LaidOutIsPromised(store.scope, store.start, docs.value);
      var r;
      r, p, moved := MigrateAndSweep(store, docs.value, apply, deleteSource, limit);
      ApplyIsBatch(p, apply);
      report := Some(r);
      assert store.trace[..fetched] == trace0;
      TablesExtend(store.start, trace0, requests, store.trace);
      if store.Clean() && Sane(store) && apply && limit.None? {
        CourseHolds(store);
        SettledIsFinal(store.scope, store.Now());
      }
      if store.undisturbed && GateSound(store.scope.window, s0, s0) {
        SoundIsUnseen(store.scope.window, docs.value, s0);
      }
    }
    RunRetains(store);
  }

  /**
   Crash and resume. `killed` is a run stopped at any point, after any failed
   calls and whatever others did; the next fault-free run leaves nothing to do
   if what it found was sound. After a sound start that is so exactly if the
   rows born meanwhile are, so under deletions always. If nobody interfered,
   the next run ends in the state the killed one was heading for, whether or
   not that was allowed to delete sources.
   */
  method ResumeAfterCrash(killed: Store, scope: Scope, pages: nat) returns (store: Store, report: Option<Report>)
    requires killed.Valid() && Layout(killed.scope.companies, killed.start)
    requires SameGoal(killed.scope, scope)
    ensures store.Valid() && store.scope == scope && store.start.objects == killed.objects
            && store.start.rows == killed.rows
    ensures store.Clean() && pages * PAGE_SIZE > |Listing(scope.window, killed.rows)| ==> report.Some?
    ensures Layout(scope.companies, store.Now())
    ensures report.Some? && store.Clean() && Sound(killed.Now()) ==>
              Settled(scope, store.Now()) && Sound(store.Now())
    ensures Sound(killed.start) ==>
              (Sound(killed.Now()) <==>
                 forall id :: id in killed.rows && id !in killed.start.issued ==>
                   RowSound(killed.Now(), killed.rows[id]))
    ensures Sound(killed.start) && OnlyDeletions(killed.start, killed.trace) ==> Sound(killed.Now())
    ensures report.Some? && store.Clean() && Sound(killed.start) && killed.undisturbed ==>
              store.Now() == Final(scope, killed.start)
  {
    hide Trace, Quiet, Layout, Settled, Final, Listing, Read, Tables, ReportFrom, Planned, MovedRehomed, RowSound,
         LossesDecided, NewbornsDecide, ReadRowsStay, ReportOk, RetainedThroughout, NothingSeen, GateSound, StillLegacy,
         OnlyDeletions, SweptAway, NoneIsSilent, BatchUnmoved, Step, Licensed, UploaderScoped, LayoutOk, Movable,
         FetchedOk, Complete, LaidOut;
    EveryReachableStateKeepsLayout(killed.scope, killed.start, killed.trace);
    if Sound(killed.start) {
      SoundUpToNewborns(killed.scope, killed.start, killed.trace);
      if OnlyDeletions(killed.start, killed.trace) {
        EveryReachableStateStaysSound(killed.scope, killed.start, killed.trace);
      }
      if killed.undisturbed {
        QuietAddsNothing(killed.start, killed.trace);
        EveryReachableStateIsOnCourse(killed.scope, scope, killed.start, killed.trace);
      }
    }
    store := new Store(killed.objects, killed.rows, scope);
    ghost var requests, fetched, p, moved;
    FoundAlike(scope, killed, store);
    report, requests, fetched, p, moved := Run(store, true, scope.deleteSource, None, pages);
    EveryReachableStateKeepsLayout(scope, store.start, store.trace);
    if store.undisturbed && Sane(store) { CourseHolds(store); }
  }

  /** The next run starts from what the killed one left, but for the ids of rows gone. */
  lemma FoundAlike(scope: Scope, killed: Store, store: Store)
    requires killed.Valid() && store.Valid() && scope == store.scope
    requires store.start.objects == killed.objects && store.start.rows == killed.rows
    ensures Layout(scope.companies, killed.Now()) ==> Layout(scope.companies, store.start)
    ensures Sound(killed.Now()) ==> Sound(store.start)
    ensures killed.rows.Keys == killed.issued ==> store.start == killed.Now()
  {
  }
}
