/**
 The storage-level sweep: for every legacy key derived from an already scoped
 row, count the object that may still sit there and, in a `--delete-source`
 run, remove it once every row mapping to it has a verified copy.
 */
module SweepLegacy {
  import opened Prelude
  import opened StoragePaths
  import opened DocumentStore
  import opened MigrationLaws
  import opened RemovalLaws
  import opened RemoteStore
  import opened BackfillGroup

  datatype PathGroup = PathGroup(key: string, docs: seq<Doc>)

  /** The already scoped rows that derive one legacy key. */
  ghost predicate SweepGroupOk(scope: Scope, s: State, g: PathGroup) {
    && g.docs != []
    && forall d :: d in g.docs ==>
         AlreadyScoped(d.row) && InWindow(scope.window, d.row) && LegacyKey(d.row) == Some(g.key) && Known(s, d)
  }

  lemma CopySound(scope: Scope, start: State, s: State, g: PathGroup, d: Doc)
    requires OnCourse(scope, start, s) && SweepGroupOk(scope, s, g) && d in g.docs && g.key in s.objects
    ensures VerifiedCopy(s, g.key, d)
  {
    assert Known(s, d);
    assert RowSound(s, s.rows[d.id]);
  }

  /** Of these rows, those still live have their copies. */
  ghost predicate CopiesLeft(s: State, docs: seq<Doc>, content: Bytes) {
    forall d :: d in docs && d.id in s.rows ==> HasCopy(s, s.rows[d.id], content)
  }

  /** Removing the legacy object takes no copy with it: the scoped keys of its rows are longer. */
  lemma RemovalLeavesCopies(scope: Scope, s: State, s': State, g: PathGroup)
    requires SweepGroupOk(scope, s, g) && RowsByOthers(scope.companies, s, s', {}) && g.key in s.objects
    requires s'.objects == s.objects - {g.key} && forall d :: d in g.docs ==> VerifiedCopy(s, g.key, d)
    ensures CopiesLeft(s', g.docs, s.objects[g.key])
    ensures AllHaveCopies(s', g.key, s.objects[g.key]) <==>
              OthersHaveCopies(s', g.key, s.objects[g.key], Ids(g.docs))
  {
    forall d | d in g.docs && d.id in s'.rows ensures HasCopy(s', s'.rows[d.id], s.objects[g.key]) {
      assert Known(s, d);
      assert |g.key| < |d.row.path.value|;
    }
  }

  datatype Verdict = Verified | Rejected(failure: Failure) | Gone

  /** Check one row's scoped copy; without a stored hash the legacy bytes are the reference. */
  method VerifyCopy(store: Store, key: string, d: Doc, legacyHash: Option<Digest>)
      returns (verdict: Verdict, legacyHash': Option<Digest>)
    requires store.Valid() && key in store.objects && d.row.path.Some?
    requires legacyHash.Some? ==> legacyHash.value == Sha256(store.objects[key])
    modifies store
    ensures store.Valid() && old(store.trace) <= store.trace
    ensures EnvStep(store.scope.companies, old(store.Now()), store.Now())
    ensures store.undisturbed ==> old(store.undisturbed) && store.Now() == old(store.Now())
    ensures store.faultless ==> old(store.faultless)
    ensures store.writes == old(store.writes)
    ensures legacyHash'.Some? ==> legacyHash'.value == Sha256(store.objects[key])
    ensures verdict.Verified? ==> VerifiedCopy(store.Now(), key, d)
    ensures verdict.Rejected? ==> verdict.failure.documentId == d.id && verdict.failure.path == key
    ensures store.faultless && VerifiedCopy(old(store.Now()), key, d) ==> verdict.Verified?
  {
    hide Trace, Quiet, Step, Licensed, LegacyKey, UploaderScoped, LayoutOk, IsCompanyScoped, AlreadyScoped;
    ghost var s0 := store.Now();
    legacyHash' := legacyHash;
    var copy := store.Download(d.row.path.value);
    if copy.Threw? { return Gone, legacyHash'; }
    if copy.Err? { return Rejected(Failure(d.id, key, SweepVerifyReadable)), legacyHash'; }
    if d.row.hash.None? && legacyHash.None? {
      ghost var s1 := store.Now();
      var legacy := store.Download(key);
      RowsByOthersTransitive(store.scope.companies, s0, s1, store.Now(), {});
      if legacy.Threw? { return Gone, legacyHash'; }
      if legacy.Err? { return Rejected(Failure(d.id, key, SweepDownloadLegacy)), legacyHash'; }
      legacyHash' := Some(Sha256(legacy.value));
    }
    var expected := if d.row.hash.Some? then d.row.hash.value else legacyHash'.value;
    if Sha256(copy.value) != expected {
      return Rejected(Failure(d.id, key, SweepVerifyHash)), legacyHash';
    }
    return Verified, legacyHash';
  }

  /** Check the scoped copy of every row of the key; the legacy bytes are read at most once. */
  /** The first copy that cannot be verified is reported. */
  method VerifyCopies(store: Store, g: PathGroup) returns (verified: bool, failures: seq<Failure>, aborted: bool)
    requires store.Valid() && SweepGroupOk(store.scope, store.Now(), g) && g.key in store.objects
    modifies store
    ensures store.Valid() && old(store.trace) <= store.trace
    ensures EnvStep(store.scope.companies, old(store.Now()), store.Now())
    ensures store.undisturbed ==> old(store.undisturbed) && store.Now() == old(store.Now())
    ensures store.faultless ==> old(store.faultless)
    ensures store.writes == old(store.writes)
    ensures FiledFor(failures, g.docs, g.key) && (!verified && !aborted ==> failures != [])
    ensures verified ==> !aborted && failures == [] && forall d :: d in g.docs ==> VerifiedCopy(store.Now(), g.key, d)
    ensures store.faultless && (forall d :: d in g.docs ==> VerifiedCopy(old(store.Now()), g.key, d)) ==> verified
  {
    hide Trace, Quiet, Step, Licensed, LegacyKey, UploaderScoped, LayoutOk, IsCompanyScoped;
    ghost var s0 := store.Now();
    verified, failures, aborted := false, [], false;
    NothingFiled(g.docs, g.key);
    var legacyHash: Option<Digest> := None;
    for i := 0 to |g.docs|
      invariant store.Valid() && old(store.trace) <= store.trace
      invariant EnvStep(store.scope.companies, s0, store.Now())
      invariant store.undisturbed ==> old(store.undisturbed) && store.Now() == s0
      invariant store.faultless ==> old(store.faultless)
      invariant store.writes == old(store.writes)
      invariant !verified && failures == [] && !aborted
      invariant legacyHash.Some? ==> legacyHash.value == Sha256(s0.objects[g.key])
      invariant forall j :: 0 <= j < i ==> VerifiedCopy(s0, g.key, g.docs[j])
    {
      var d := g.docs[i];
      assert d in g.docs;
      ghost var s1 := store.Now();
      var verdict;
      verdict, legacyHash := VerifyCopy(store, g.key, d, legacyHash);
      RowsByOthersTransitive(store.scope.companies, s0, s1, store.Now(), {});
      match verdict {
        case Gone => aborted := true; return;
        case Rejected(failure) =>
          failures := [failure];
          OneFiled(g.docs, i, g.key, failure.step);
          return;
        case Verified =>
      }
    }
    verified := true;
  }

  /** One legacy key. */
  method SweepKey(store: Store, g: PathGroup, deleteSource: bool, budgetLeft: bool)
      returns (counted: nat, removed: bool, failures: seq<Failure>)
    requires store.Valid() && SweepGroupOk(store.scope, store.Now(), g) && AllPromised(store.scope, store.start, g.docs)
    requires deleteSource == store.scope.deleteSource
    modifies store
    ensures store.Valid() && old(store.trace) <= store.trace
    ensures RowsByOthers(store.scope.companies, old(store.Now()), store.Now(), {})
    ensures store.objects == old(store.objects) || (deleteSource && store.objects == old(store.objects) - {g.key})
    // an object that is still there is counted and not reported removed; without faults the counts are exact
    ensures counted <= 1
    ensures removed ==> counted == 1 && budgetLeft && g.key in old(store.objects) && g.key !in store.objects
    ensures g.key in store.objects ==> counted == 1 && !removed
    ensures store.faultless ==> (counted == 1 <==> g.key in old(store.objects))
    ensures store.faultless && store.objects != old(store.objects) ==> removed
    ensures store.faultless && g.key !in old(store.objects) ==> failures == []
    // with budget left what stays is reported, unless some row was at it
    ensures FiledFor(failures, g.docs, g.key)
    ensures store.faultless && deleteSource && budgetLeft && g.key in store.objects && failures == [] ==>
              && PointedSince(store.trace, |old(store.trace)|, g.key)
              && (store.undisturbed ==> Referenced(store.Now(), g.key))
    ensures !budgetLeft ==> store.objects == old(store.objects)
    // nothing is removed unless the copies of the group are verified, and it is the rows outside that decide
    ensures store.objects != old(store.objects) ==> forall d :: d in g.docs ==> VerifiedCopy(old(store.Now()), g.key, d)
    ensures store.objects != old(store.objects) ==> CopiesLeft(store.Now(), g.docs, old(store.objects)[g.key])
    ensures store.objects != old(store.objects) ==>
              (AllHaveCopies(store.Now(), g.key, old(store.objects)[g.key]) <==>
                 OthersHaveCopies(store.Now(), g.key, old(store.objects)[g.key], Ids(g.docs)))
    ensures !deleteSource ==> store.writes == old(store.writes)
    ensures store.faultless ==> old(store.faultless)
    ensures store.undisturbed ==>
              old(store.undisturbed) && store.rows == old(store.rows) && store.issued == old(store.issued)
    // with budget left, a group whose copies can all be verified keeps its source only for a row that was at it
    ensures store.faultless && deleteSource && budgetLeft && g.key in store.objects
            && (forall d :: d in g.docs ==> VerifiedCopy(old(store.Now()), g.key, d)) ==>
              && PointedSince(store.trace, |old(store.trace)|, g.key)
              && (store.undisturbed ==> Referenced(store.Now(), g.key))
    ensures store.Clean() && (g.key !in old(store.objects) || Referenced(old(store.Now()), g.key)) ==>
              store.writes == old(store.writes) && store.Now() == old(store.Now())
  {
    hide Trace, Quiet, Step, Licensed, UploaderScoped, LayoutOk, OnCourse, LegacyKey, CompanyScopedPath,
         IsCompanyScoped;
    ghost var s0 := store.Now();
    counted, removed, failures := 0, false, [];
    var first := g.docs[0];
    assert first in g.docs;
    var unexpected := Failure(first.id, g.key, SweepUnexpected);
    NothingFiled(g.docs, g.key);
    OneFiled(g.docs, 0, g.key, SweepUnexpected);
    var present := store.Exists(g.key);
    ghost var s1 := store.Now();
    if !present.Ok? { counted, failures := 1, [unexpected]; return; }
    if !present.value { return; }
    counted := 1;
    if !deleteSource || !budgetLeft { return; }
    var verified, aborted;
    verified, failures, aborted := VerifyCopies(store, g);
    ghost var s2 := store.Now();
    RowsByOthersTransitive(store.scope.companies, s0, s1, s2, {});
    if aborted { failures := [unexpected]; return; }
    if !verified { return; }
    ghost var trace2 := store.trace;
    removed, aborted := RemoveLegacySourceIfUnreferenced(store, g.key, first);
    PointedLater(store.trace, store.trace, |old(store.trace)|, |trace2|, g.key);
    RowsByOthersTransitive(store.scope.companies, s0, s2, store.Now(), {});
    if aborted { removed, failures := false, [unexpected]; }
    if store.objects != s0.objects { RemovalLeavesCopies(store.scope, s0, store.Now(), g); }
  }

  ghost predicate SweepOk(scope: Scope, s: State, groups: seq<PathGroup>) {
    forall g :: g in groups ==> SweepGroupOk(scope, s, g)
  }

  lemma SweepOkKept(scope: Scope, s: State, s': State, groups: seq<PathGroup>)
    requires SweepOk(scope, s, groups) && RowsByOthers(scope.companies, s, s', {})
    ensures SweepOk(scope, s', groups)
  {
  }

  /** Of the first `n` keys, only those in `pointed`, or with a copy that cannot be verified, are left. */
  ghost predicate OnlyStuck(s: State, groups: seq<PathGroup>, n: nat, pointed: set<string>) {
    forall j :: 0 <= j < n && j < |groups| && groups[j].key in s.objects && groups[j].key !in pointed ==>
      exists d :: d in groups[j].docs && !VerifiedCopy(s, groups[j].key, d)
  }

  lemma StuckStep(s: State, s': State, groups: seq<PathGroup>, n: nat, pointed: set<string>, pointed': set<string>)
    requires n < |groups| && s'.objects.Keys <= s.objects.Keys && pointed <= pointed'
    requires forall key :: key in s'.objects ==> s'.objects[key] == s.objects[key]
    requires OnlyStuck(s, groups, n, pointed)
    requires groups[n].key in s'.objects && groups[n].key !in pointed' ==>
               exists d :: d in groups[n].docs && !VerifiedCopy(s, groups[n].key, d)
    ensures OnlyStuck(s', groups, n + 1, pointed')
  {
    forall j | 0 <= j < n + 1 && groups[j].key in s'.objects && groups[j].key !in pointed'
      ensures exists d :: d in groups[j].docs && !VerifiedCopy(s', groups[j].key, d)
    {
      var d :| d in groups[j].docs && !VerifiedCopy(s, groups[j].key, d);
      assert !VerifiedCopy(s', groups[j].key, d);
    }
  }

  /** In a sound state every copy there has to be can be verified. */
  lemma StuckIsReferenced(scope: Scope, start: State, s: State, groups: seq<PathGroup>, pointed: set<string>)
    requires OnCourse(scope, start, s) && SweepOk(scope, s, groups) && OnlyStuck(s, groups, |groups|, pointed)
    requires forall key :: key in pointed ==> Referenced(s, key)
    ensures Swept(s, groups, |groups|)
  {
    forall j | 0 <= j < |groups| && groups[j].key in s.objects ensures Referenced(s, groups[j].key) {
      assert groups[j] in groups && SweepGroupOk(scope, s, groups[j]);
      forall d | d in groups[j].docs ensures VerifiedCopy(s, groups[j].key, d) {
        CopySound(scope, start, s, groups[j], d);
      }
    }
  }

  /** No leftover can be removed: every key is empty or still some row's pointer. */
  ghost predicate Swept(s: State, groups: seq<PathGroup>, n: nat) {
    forall j :: 0 <= j < n && j < |groups| ==> groups[j].key !in s.objects || Referenced(s, groups[j].key)
  }

  /** What a run was promised about its start. */
  ghost predicate Sane(store: Store) {
    Layout(store.scope.companies, store.start) && Sound(store.start)
  }

  lemma CourseHolds(store: Store)
    requires store.Valid() && store.undisturbed && Sane(store)
    ensures OnCourse(store.scope, store.start, store.Now())
    ensures Final(store.scope, store.Now()) == Final(store.scope, store.start)
  {
    EveryReachableStateIsOnCourse(store.scope, store.scope, store.start, store.trace);
  }

  /** Objects are only removed, and only at the keys swept. */
  ghost predicate OnlySwept(s: State, s': State, groups: seq<PathGroup>) {
    && s'.objects.Keys <= s.objects.Keys
    && (forall key :: key in s'.objects ==> s'.objects[key] == s.objects[key])
    && (forall key :: key in s.objects && key !in s'.objects ==> exists g :: g in groups && g.key == key)
  }

  /** The keys of the first `n` groups that still have an object. */
  ghost function LeftKeys(s: State, groups: seq<PathGroup>, n: nat): set<string> {
    set j | 0 <= j < n && j < |groups| && groups[j].key in s.objects :: groups[j].key
  }

  /** What the counters of the sweep say after `n` keys. */
  ghost predicate Tallied(s0: State, s: State, groups: seq<PathGroup>, n: nat, keys: nat, removed: nat,
                          budget: Option<nat>, faultless: bool) {
    && |LeftKeys(s, groups, n)| <= keys - removed <= n
    && removed <= |s0.objects.Keys - s.objects.Keys|
    && (budget.Some? ==> removed <= budget.value)
    && (faultless ==> keys == |LeftKeys(s0, groups, n)| && removed == |s0.objects.Keys - s.objects.Keys|)
  }

  lemma NothingTallied(s: State, groups: seq<PathGroup>, budget: Option<nat>, faultless: bool)
    ensures Tallied(s, s, groups, 0, 0, 0, budget, faultless)
  {
    assert LeftKeys(s, groups, 0) == {} && s.objects.Keys - s.objects.Keys == {};
  }

  lemma TalliedStep(s0: State, s: State, s': State, groups: seq<PathGroup>, n: nat, keys: nat, removed: nat,
                    budget: Option<nat>, faultless: bool, faultless': bool, counted: nat, gone: bool)
    requires n < |groups| && DistinctKeys(groups) && OnlySwept(s0, s, groups[..n])
    requires Tallied(s0, s, groups, n, keys, removed, budget, faultless) && (faultless' ==> faultless)
    requires s'.objects == s.objects || s'.objects == s.objects - {groups[n].key}
    requires counted <= 1 && (groups[n].key in s'.objects ==> counted == 1 && !gone)
    requires gone ==> counted == 1 && groups[n].key in s.objects && groups[n].key !in s'.objects
    requires gone ==> budget.None? || removed < budget.value
    requires faultless' ==> (counted == 1 <==> groups[n].key in s.objects) && (s'.objects != s.objects ==> gone)
    ensures Tallied(s0, s', groups, n + 1, keys + counted, removed + (if gone then 1 else 0), budget, faultless')
  {
    LeftKeysStep(s, s', groups, n);
    KeyUntouched(s0, s, groups, n);
    LeftKeysGrow(s0, groups, n);
    GoneGrow(s0.objects.Keys, s.objects.Keys, s'.objects.Keys, groups[n].key);
    hide LeftKeys, OnlySwept, DistinctKeys;
  }

  lemma KeyUntouched(s0: State, s: State, groups: seq<PathGroup>, n: nat)
    requires n < |groups| && DistinctKeys(groups) && OnlySwept(s0, s, groups[..n])
    ensures groups[n].key in s.objects <==> groups[n].key in s0.objects
  {
    forall g | g in groups[..n] ensures g.key != groups[n].key {
      var j :| 0 <= j < n && groups[j] == g;
    }
  }

  lemma GoneGrow(all: set<string>, left: set<string>, left': set<string>, key: string)
    requires left <= all && (left' == left || left' == left - {key})
    ensures |all - left'| == |all - left| + (if key in left && key !in left' then 1 else 0)
  {
    if key in left && key !in left' {
      assert all - left' == (all - left) + {key};
    } else {
      assert left' == left;
    }
  }

  lemma LeftKeysGrow(s: State, groups: seq<PathGroup>, n: nat)
    requires n < |groups| && DistinctKeys(groups)
    ensures |LeftKeys(s, groups, n + 1)| == |LeftKeys(s, groups, n)| + (if groups[n].key in s.objects then 1 else 0)
  {
    var key := groups[n].key;
    assert key !in LeftKeys(s, groups, n);
    assert LeftKeys(s, groups, n + 1) == LeftKeys(s, groups, n) + if key in s.objects then {key} else {};
  }

  lemma LeftKeysStep(s: State, s': State, groups: seq<PathGroup>, n: nat)
    requires n < |groups| && s'.objects.Keys <= s.objects.Keys
    ensures |LeftKeys(s', groups, n + 1)| <= |LeftKeys(s, groups, n)| + (if groups[n].key in s'.objects then 1 else 0)
  {
    var more := if groups[n].key in s'.objects then {groups[n].key} else {};
    SubsetSize(LeftKeys(s', groups, n + 1), LeftKeys(s, groups, n) + more);
  }

  lemma NoKeysLeft(s: State, groups: seq<PathGroup>, i: nat)
    requires i < |groups|
    ensures LeftKeys(s, groups, |groups|) == {} ==> groups[i].key !in s.objects
  {
    assert groups[i].key in s.objects ==> groups[i].key in LeftKeys(s, groups, |groups|);
  }

  lemma OnlySweptStep(s0: State, s: State, s': State, groups: seq<PathGroup>, n: nat)
    requires n < |groups| && OnlySwept(s0, s, groups[..n])
    requires s'.objects == s.objects || s'.objects == s.objects - {groups[n].key}
    ensures OnlySwept(s0, s', groups[..n + 1])
    ensures s'.objects.Keys <= s.objects.Keys <= s0.objects.Keys
    ensures forall key :: key in s'.objects ==> s'.objects[key] == s.objects[key]
  {
    assert groups[..n + 1] == groups[..n] + [groups[n]] && groups[n] in groups;
    forall key | key in s0.objects && key !in s'.objects ensures exists g :: g in groups[..n + 1] && g.key == key {
      if key in s.objects {
        assert groups[n] in groups[..n + 1];
      } else {
        var g :| g in groups[..n] && g.key == key;
        assert g in groups[..n + 1];
      }
    }
  }

  ghost predicate DistinctKeys(groups: seq<PathGroup>) {
    forall i, j :: 0 <= i < j < |groups| ==> groups[i].key != groups[j].key
  }

  /** Of the keys whose object went, the rows swept have their copies. */
  ghost predicate SweptCovered(s0: State, s: State, groups: seq<PathGroup>) {
    forall g :: g in groups && g.key in s0.objects && g.key !in s.objects ==> CopiesLeft(s, g.docs, s0.objects[g.key])
  }

  /** Sweeping one more key takes no copy of another group with it: copies are at company-scoped keys. */
  lemma SweptCoveredStep(scope: Scope, start: State, s0: State, s: State, s': State, groups: seq<PathGroup>, n: nat)
    requires n < |groups| && DistinctKeys(groups) && SweepOk(scope, s, groups)
    requires forall g :: g in groups ==> AllPromised(scope, start, g.docs)
    requires Layout(scope.companies, start) ==> SweptCovered(s0, s, groups)
    requires OnlySwept(s0, s, groups[..n]) && RowsByOthers(scope.companies, s, s', {})
    requires s'.objects == s.objects
             || (s'.objects == s.objects - {groups[n].key} && groups[n].key in s.objects
                 && CopiesLeft(s', groups[n].docs, s.objects[groups[n].key]))
    ensures Layout(scope.companies, start) ==> SweptCovered(s0, s', groups)
  {
    forall g | Layout(scope.companies, start) && g in groups && g.key in s0.objects && g.key !in s'.objects
      ensures CopiesLeft(s', g.docs, s0.objects[g.key])
    {
      if g != groups[n] || s'.objects == s.objects {
        assert g.key !in s.objects;
        GroupStaysCovered(scope, start, s, s', g, groups[n], s0.objects[g.key]);
      }
    }
  }

  lemma GroupStaysCovered(scope: Scope, start: State, s: State, s': State, g: PathGroup, swept: PathGroup,
                          content: Bytes)
    requires SweepGroupOk(scope, s, g) && SweepGroupOk(scope, s, swept) && Layout(scope.companies, start)
    requires AllPromised(scope, start, g.docs) && AllPromised(scope, start, swept.docs)
    requires CopiesLeft(s, g.docs, content) && RowsByOthers(scope.companies, s, s', {})
    requires s'.objects == s.objects || s'.objects == s.objects - {swept.key}
    ensures CopiesLeft(s', g.docs, content)
  {
    var first := swept.docs[0];
    assert first in swept.docs;
    PromisedKey(scope, start, first.row);
    forall d | d in g.docs && d.id in s'.rows ensures HasCopy(s', s'.rows[d.id], content) {
      assert Known(s, d) && Promised(scope, start, d.row);
      assert IsCompanyScoped(d.row.path.value, d.row.company.value);
    }
  }

  /** Everything that holds after the first `n` keys; some row was at those in `pointed`. */
  ghost predicate SweptSoFar(scope: Scope, start: State, s0: State, s: State, groups: seq<PathGroup>, n: nat,
                             keys: nat, removed: nat, budget: Option<nat>, faultless: bool, deleteSource: bool,
                             pointed: set<string>) {
    && n <= |groups| && SweepOk(scope, s, groups)
    && RowsByOthers(scope.companies, s0, s, {}) && OnlySwept(s0, s, groups[..n])
    && (Layout(scope.companies, start) ==> SweptCovered(s0, s, groups))
    && Tallied(s0, s, groups, n, keys, removed, budget, faultless)
    && (faultless && deleteSource && (budget.None? || removed < budget.value) ==> OnlyStuck(s, groups, n, pointed))
  }

  lemma SweepStarts(scope: Scope, start: State, s: State, groups: seq<PathGroup>, budget: Option<nat>,
                    faultless: bool, deleteSource: bool)
    requires SweepOk(scope, s, groups) && s.rows.Keys <= s.issued
    ensures SweptSoFar(scope, start, s, s, groups, 0, 0, 0, budget, faultless, deleteSource, {})
  {
    NothingTallied(s, groups, budget, faultless);
  }

  lemma SoFarIsOk(scope: Scope, start: State, s0: State, s: State, groups: seq<PathGroup>, n: nat, keys: nat,
                  removed: nat, budget: Option<nat>, faultless: bool, deleteSource: bool, pointed: set<string>)
    requires n < |groups|
    requires SweptSoFar(scope, start, s0, s, groups, n, keys, removed, budget, faultless, deleteSource, pointed)
    ensures SweepGroupOk(scope, s, groups[n])
    ensures s.objects.Keys <= s0.objects.Keys
  {
    assert groups[n] in groups;
  }

  /** One key more, by what `SweepKey` promises. */
  lemma SweepAdvances(scope: Scope, start: State, s0: State, s: State, s': State, groups: seq<PathGroup>, n: nat,
                      keys: nat, removed: nat, budget: Option<nat>, faultless: bool, faultless': bool,
                      deleteSource: bool, pointed: set<string>, pointed': set<string>, counted: nat, gone: bool)
    requires SweptSoFar(scope, start, s0, s, groups, n, keys, removed, budget, faultless, deleteSource, pointed)
    requires n < |groups| && DistinctKeys(groups) && pointed <= pointed'
    requires forall g :: g in groups ==> AllPromised(scope, start, g.docs)
    requires RowsByOthers(scope.companies, s, s', {}) && (faultless' ==> faultless)
    requires s'.objects == s.objects || s'.objects == s.objects - {groups[n].key}
    requires s'.objects != s.objects ==> CopiesLeft(s', groups[n].docs, s.objects[groups[n].key])
    requires counted <= 1 && (groups[n].key in s'.objects ==> counted == 1 && !gone)
    requires gone ==> counted == 1 && groups[n].key in s.objects && groups[n].key !in s'.objects
    requires gone ==> budget.None? || removed < budget.value
    requires faultless' ==> (counted == 1 <==> groups[n].key in s.objects) && (s'.objects != s.objects ==> gone)
    requires faultless' && deleteSource && (budget.None? || removed < budget.value)
             && groups[n].key in s'.objects && groups[n].key !in pointed' ==>
               exists d :: d in groups[n].docs && !VerifiedCopy(s, groups[n].key, d)
    ensures SweptSoFar(scope, start, s0, s', groups, n + 1, keys + counted, removed + (if gone then 1 else 0), budget,
                       faultless', deleteSource, pointed')
  {
    hide Layout, Tallied, OnlySwept, SweptCovered, OnlyStuck, SweepOk, RowsByOthers, AllPromised, VerifiedCopy,
         Referenced, CopiesLeft, DistinctKeys;
    RowsByOthersTransitive(scope.companies, s0, s, s', {});
    SweepOkKept(scope, s, s', groups);
    SweptCoveredStep(scope, start, s0, s, s', groups, n);
    OnlySweptStep(s0, s, s', groups, n);
    TalliedStep(s0, s, s', groups, n, keys, removed, budget, faultless, faultless', counted, gone);
    if faultless' && deleteSource && (budget.None? || removed + (if gone then 1 else 0) < budget.value) {
      StuckStep(s, s', groups, n, pointed, pointed');
    }
  }

  lemma SweepEnds(scope: Scope, start: State, s0: State, s: State, groups: seq<PathGroup>, keys: nat, removed: nat,
                  budget: Option<nat>, faultless: bool, deleteSource: bool, pointed: set<string>)
    requires SweptSoFar(scope, start, s0, s, groups, |groups|, keys, removed, budget, faultless, deleteSource, pointed)
    ensures SweepOk(scope, s, groups) && RowsByOthers(scope.companies, s0, s, {}) && OnlySwept(s0, s, groups)
    ensures Layout(scope.companies, start) ==> SweptCovered(s0, s, groups)
    ensures |LeftKeys(s, groups, |groups|)| <= keys - removed <= |groups|
    ensures removed <= |s0.objects.Keys - s.objects.Keys| && (budget.Some? ==> removed <= budget.value)
    ensures faultless ==>
              keys == |LeftKeys(s0, groups, |groups|)| && removed == |s0.objects.Keys - s.objects.Keys|
    ensures faultless && deleteSource && (budget.None? || removed < budget.value) ==>
              && OnlyStuck(s, groups, |groups|, pointed)
              && forall g :: g in groups && g.key in s.objects && g.key !in pointed ==>
                   exists d :: d in g.docs && !VerifiedCopy(s, g.key, d)
  {
    assert groups[..|groups|] == groups;
  }

  /** Every failure of the sweep is filed for a row of one of the groups, under its key. */
  ghost predicate SweepFiled(failures: seq<Failure>, groups: seq<PathGroup>) {
    forall f :: f in failures ==> exists g :: g in groups && f.path == g.key && f.documentId in Ids(g.docs)
  }

  /** The keys that are still there are reported, but for those some row was at. */
  ghost predicate StuckReported(s: State, groups: seq<PathGroup>, n: nat, pointed: set<string>,
                                failures: seq<Failure>) {
    forall j :: 0 <= j < n && j < |groups| && groups[j].key in s.objects && groups[j].key !in pointed ==>
      exists f :: f in failures && f.path == groups[j].key
  }

  lemma SweepFiledStep(failures: seq<Failure>, more: seq<Failure>, groups: seq<PathGroup>, n: nat)
    requires n < |groups| && SweepFiled(failures, groups) && FiledFor(more, groups[n].docs, groups[n].key)
    ensures SweepFiled(failures + more, groups)
  {
    forall f | f in failures + more
      ensures exists g :: g in groups && f.path == g.key && f.documentId in Ids(g.docs)
    {
      if f !in failures { assert groups[n] in groups; }
    }
  }

  lemma StuckReportedStep(s: State, s': State, groups: seq<PathGroup>, n: nat, pointed: set<string>,
                          pointed': set<string>, failures: seq<Failure>, more: seq<Failure>)
    requires n < |groups| && s'.objects.Keys <= s.objects.Keys && pointed <= pointed'
    requires StuckReported(s, groups, n, pointed, failures) && FiledFor(more, groups[n].docs, groups[n].key)
    requires groups[n].key in s'.objects && groups[n].key !in pointed' ==> more != []
    ensures StuckReported(s', groups, n + 1, pointed', failures + more)
  {
    forall j | 0 <= j < n + 1 && groups[j].key in s'.objects && groups[j].key !in pointed'
      ensures exists f :: f in failures + more && f.path == groups[j].key
    {
      if j == n {
        assert more[0] in failures + more;
      } else {
        var f :| f in failures && f.path == groups[j].key;
        assert f in failures + more;
      }
    }
  }

  /** Key by key; `pointed` are the keys some row was at when it was asked for them. */
  method SweepEach(store: Store, groups: seq<PathGroup>, deleteSource: bool, budget: Option<nat>)
      returns (keysWithLeftovers: nat, objectsRemoved: nat, failures: seq<Failure>, ghost pointed: set<string>)
    requires store.Valid() && SweepOk(store.scope, store.Now(), groups)
    requires forall g :: g in groups ==> AllPromised(store.scope, store.start, g.docs)
    requires deleteSource == store.scope.deleteSource && DistinctKeys(groups)
    modifies store
    ensures store.Valid() && old(store.trace) <= store.trace
    ensures SweptSoFar(store.scope, store.start, old(store.Now()), store.Now(), groups, |groups|, keysWithLeftovers,
                       objectsRemoved, budget, store.faultless, deleteSource, pointed)
    ensures PointedKeys(store.Now(), store.trace, |old(store.trace)|, store.undisturbed, pointed)
    ensures SweepFiled(failures, groups)
    ensures store.faultless && deleteSource && (budget.None? || objectsRemoved < budget.value) ==>
              StuckReported(store.Now(), groups, |groups|, pointed, failures)
    ensures store.faultless && LeftKeys(old(store.Now()), groups, |groups|) == {} ==> failures == []
    ensures !deleteSource ==> store.writes == old(store.writes) && store.objects == old(store.objects)
    ensures store.faultless ==> old(store.faultless)
    ensures store.undisturbed ==>
              old(store.undisturbed) && store.rows == old(store.rows) && store.issued == old(store.issued)
    ensures store.Clean() && Swept(old(store.Now()), groups, |groups|) ==>
              store.writes == old(store.writes) && store.Now() == old(store.Now())
  {
    hide Trace, Quiet, Step, Licensed, UploaderScoped, LayoutOk, OnCourse, LegacyKey, SweepGroupOk, Sane, LeftKeys,
         Referenced, Tallied, SweptSoFar;
    hide OnlyStuck, OnlySwept, SweepOk, PointedSince, PointedKeys, Swept, VerifiedCopy, AllPromised, RowsByOthers,
         SweptCovered, CopiesLeft, Layout, DistinctKeys, AllHaveCopies, OthersHaveCopies;
    ghost var s0, scope, start := store.Now(), store.scope, store.start;
    keysWithLeftovers, objectsRemoved, failures := 0, 0, [];
    ghost var from := |store.trace|;
    pointed := {};
    SweepStarts(scope, start, s0, groups, budget, store.faultless, deleteSource);
    assert PointedKeys(s0, store.trace, from, store.undisturbed, {}) by { NothingPointed(s0, store.trace, from); }
    for i := 0 to |groups|
      invariant store.Valid() && old(store.trace) <= store.trace
      invariant SweptSoFar(scope, start, s0, store.Now(), groups, i, keysWithLeftovers, objectsRemoved, budget,
                           store.faultless, deleteSource, pointed)
      invariant PointedKeys(store.Now(), store.trace, from, store.undisturbed, pointed)
      invariant SweepFiled(failures, groups)
      invariant store.faultless && deleteSource && (budget.None? || objectsRemoved < budget.value) ==>
                  StuckReported(store.Now(), groups, i, pointed, failures)
      invariant store.faultless && LeftKeys(s0, groups, |groups|) == {} ==> failures == []
      invariant !deleteSource ==> store.writes == old(store.writes) && store.objects == s0.objects
      invariant store.faultless ==> old(store.faultless)
      invariant store.undisturbed ==> old(store.undisturbed) && store.rows == s0.rows && store.issued == s0.issued
      invariant store.Clean() && Swept(s0, groups, |groups|) ==> store.writes == old(store.writes) && store.Now() == s0
    {
      var g := groups[i];
      assert g in groups;
      ghost var s1, trace1, faultless, before := store.Now(), store.trace, store.faultless, pointed;
      ghost var undisturbed := store.undisturbed;
      SoFarIsOk(scope, start, s0, s1, groups, i, keysWithLeftovers, objectsRemoved, budget, faultless, deleteSource,
                pointed);
      var counted, removed, more := SweepKey(store, g, deleteSource, budget.None? || objectsRemoved < budget.value);
      pointed := PointedGrows(s1, store.Now(), trace1, store.trace, from, undisturbed, store.undisturbed, before,
                              g.key);
      SweepAdvances(scope, start, s0, s1, store.Now(), groups, i, keysWithLeftovers, objectsRemoved, budget, faultless,
                    store.faultless, deleteSource, before, pointed, counted, removed);
      SweepFiledStep(failures, more, groups, i);
      if store.faultless && deleteSource
         && (budget.None? || objectsRemoved + (if removed then 1 else 0) < budget.value) {
        StuckReportedStep(s1, store.Now(), groups, i, before, pointed, failures, more);
      }
      StillSwept(s1, groups, i);
      NoKeysLeft(s0, groups, i);
      keysWithLeftovers := keysWithLeftovers + counted;
      objectsRemoved := objectsRemoved + (if removed then 1 else 0);
      failures := failures + more;
    }
  }

  method SweepLegacyObjects(store: Store, groups: seq<PathGroup>, deleteSource: bool, budget: Option<nat>)
      returns (keysWithLeftovers: nat, objectsRemoved: nat, failures: seq<Failure>)
    requires store.Valid() && SweepOk(store.scope, store.Now(), groups)
    requires forall g :: g in groups ==> AllPromised(store.scope, store.start, g.docs)
    requires deleteSource == store.scope.deleteSource && DistinctKeys(groups)
    modifies store
    ensures store.Valid() && old(store.trace) <= store.trace
    ensures RowsByOthers(store.scope.companies, old(store.Now()), store.Now(), {})
    ensures OnlySwept(old(store.Now()), store.Now(), groups)
    ensures Layout(store.scope.companies, store.start) ==> SweptCovered(old(store.Now()), store.Now(), groups)
    // every key that still has an object is counted and not taken off again
    ensures |LeftKeys(store.Now(), groups, |groups|)| <= keysWithLeftovers - objectsRemoved <= |groups|
    // no more is taken off than went, without faults exactly that, and never more than the budget
    ensures objectsRemoved <= |old(store.objects).Keys - store.objects.Keys|
    ensures budget.Some? ==> objectsRemoved <= budget.value
    ensures store.faultless ==>
              && keysWithLeftovers == |LeftKeys(old(store.Now()), groups, |groups|)|
              && objectsRemoved == |old(store.objects).Keys - store.objects.Keys|
    ensures store.faultless && LeftKeys(old(store.Now()), groups, |groups|) == {} ==> failures == []
    ensures !deleteSource ==> store.writes == old(store.writes) && store.objects == old(store.objects)
    ensures store.faultless ==> old(store.faultless)
    ensures store.undisturbed ==>
              old(store.undisturbed) && store.rows == old(store.rows) && store.issued == old(store.issued)
    // a faultless run with budget to spare leaves only sources some row was at, or a copy of which is not verified
    ensures store.faultless && deleteSource && (budget.None? || objectsRemoved < budget.value) ==>
              forall g :: g in groups && g.key in store.objects ==>
                || PointedSince(store.trace, |old(store.trace)|, g.key)
                || exists d :: d in g.docs && !VerifiedCopy(store.Now(), g.key, d)
    // and reports each of the latter; no failure is filed for anything else
    ensures store.faultless && deleteSource && (budget.None? || objectsRemoved < budget.value) ==>
              forall g :: g in groups && g.key in store.objects ==>
                || PointedSince(store.trace, |old(store.trace)|, g.key)
                || exists f :: f in failures && f.path == g.key
    ensures forall f :: f in failures ==> exists g :: g in groups && f.path == g.key && f.documentId in Ids(g.docs)
    ensures store.Clean() && Sane(store) && deleteSource && (budget.None? || objectsRemoved < budget.value) ==>
              Swept(store.Now(), groups, |groups|)
    ensures store.Clean() && Swept(old(store.Now()), groups, |groups|) ==>
              store.writes == old(store.writes) && store.Now() == old(store.Now())
  {
    hide Trace, Quiet, Step, Licensed, UploaderScoped, LayoutOk, OnCourse, LegacyKey, SweepGroupOk, Sane, LeftKeys,
         Referenced, Tallied, SweptSoFar;
    hide OnlyStuck, OnlySwept, SweepOk, PointedSince, PointedKeys, Swept, VerifiedCopy, AllPromised, RowsByOthers,
         SweptCovered, CopiesLeft, Layout, DistinctKeys, AllHaveCopies, OthersHaveCopies;
    ghost var s0, scope, start, from := store.Now(), store.scope, store.start, |store.trace|;
    ghost var pointed;
    keysWithLeftovers, objectsRemoved, failures, pointed := SweepEach(store, groups, deleteSource, budget);
    SweepEnds(scope, start, s0, store.Now(), groups, keysWithLeftovers, objectsRemoved, budget, store.faultless,
              deleteSource, pointed);
    PointedMeans(store.Now(), store.trace, from, store.undisturbed, pointed);
    if StuckReported(store.Now(), groups, |groups|, pointed, failures) {
      ReportedMeans(store.Now(), groups, pointed, failures);
    }
    if store.Clean() && OnlyStuck(store.Now(), groups, |groups|, pointed) && Sane(store) {
      CourseHolds(store);
      StuckIsReferenced(scope, start, store.Now(), groups, pointed);
    }
  }

  /** Some row was at each of these keys, and if nobody interfered still is. */
  ghost predicate PointedKeys(s: State, trace: seq<Entry>, from: nat, undisturbed: bool, pointed: set<string>) {
    forall key :: key in pointed ==> PointedSince(trace, from, key) && (undisturbed ==> Referenced(s, key))
  }

  lemma NothingPointed(s: State, trace: seq<Entry>, from: nat)
    ensures forall undisturbed :: PointedKeys(s, trace, from, undisturbed, {})
  {
  }

  lemma PointedMeans(s: State, trace: seq<Entry>, from: nat, undisturbed: bool, pointed: set<string>)
    requires PointedKeys(s, trace, from, undisturbed, pointed)
    ensures forall key :: key in pointed ==> PointedSince(trace, from, key) && (undisturbed ==> Referenced(s, key))
  {
  }

  lemma ReportedMeans(s: State, groups: seq<PathGroup>, pointed: set<string>, failures: seq<Failure>)
    requires StuckReported(s, groups, |groups|, pointed, failures)
    ensures forall g :: g in groups && g.key in s.objects && g.key !in pointed ==>
              exists f :: f in failures && f.path == g.key
  {
    forall g | g in groups && g.key in s.objects && g.key !in pointed
      ensures exists f :: f in failures && f.path == g.key
    {
      var j :| 0 <= j < |groups| && groups[j] == g;
    }
  }

  lemma PointedGrows(s: State, s': State, trace: seq<Entry>, longer: seq<Entry>, from: nat, undisturbed: bool,
                     undisturbed': bool, pointed: set<string>, key: string) returns (pointed': set<string>)
    requires PointedKeys(s, trace, from, undisturbed, pointed) && trace <= longer && from <= |trace|
    requires undisturbed' ==> undisturbed && s'.rows == s.rows
    ensures pointed <= pointed' && PointedKeys(s', longer, from, undisturbed', pointed')
    ensures PointedSince(longer, |trace|, key) && (undisturbed' ==> Referenced(s', key)) ==> key in pointed'
  {
    var more := if PointedSince(longer, |trace|, key) && (undisturbed' ==> Referenced(s', key)) then {key} else {};
    pointed' := pointed + more;
    forall k | k in pointed' ensures PointedSince(longer, from, k) && (undisturbed' ==> Referenced(s', k)) {
      if k in pointed {
        PointedLater(trace, longer, from, from, k);
        if undisturbed' {
          var id :| RowAt(s, id, k);
          assert RowAt(s', id, k);
        }
      } else {
        PointedLater(longer, longer, from, |trace|, k);
      }
    }
  }

  lemma StillSwept(s: State, groups: seq<PathGroup>, n: nat)
    requires n < |groups|
    ensures Swept(s, groups, |groups|) ==> groups[n].key !in s.objects || Referenced(s, groups[n].key)
  {
  }
}
