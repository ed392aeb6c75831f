/**
 Migration of one legacy key and all rows at it: copy, verify, repoint every
 row, roll back copies no row ended up at, and only then, if asked, remove the
 source.
 */
module BackfillGroup {
  import opened Prelude
  import opened StoragePaths
  import opened DocumentStore
  import opened MigrationLaws
  import opened RemovalLaws
  import opened RemoteStore

  datatype FailedStep =
    | DownloadSource | UploadCopy | VerifyReadable | VerifyHash | UpdatePointer | Unexpected
    | SweepVerifyReadable | SweepDownloadLegacy | SweepVerifyHash | SweepUnexpected

  datatype Failure = Failure(documentId: nat, path: string, step: FailedStep)

  datatype TargetState = TargetState(path: string, copyHash: Digest, uploadedThisRun: bool, repointed: nat)

  datatype Outcome = Done(migrated: nat, failed: nat, sourceRemoved: bool) | Aborted

  // ----- the rows of a group -----

  ghost predicate DistinctIds(docs: seq<Doc>) {
    forall i, j :: 0 <= i < j < |docs| ==> docs[i].id != docs[j].id
  }

  ghost function Ids(docs: seq<Doc>): set<nat> {
    set d | d in docs :: d.id
  }

  ghost predicate AtSource(scope: Scope, source: string, d: Doc) {
    Candidate(d.row) && d.row.path == Some(source) && InWindow(scope.window, d.row)
  }

  ghost predicate GroupOk(scope: Scope, s: State, source: string, docs: seq<Doc>) {
    && docs != [] && DistinctIds(docs)
    && forall d :: d in docs ==> AtSource(scope, source, d) && Known(s, d)
  }

  /** The live row, if any, is as fetched or re-homed. */
  ghost predicate Tracked(s: State, d: Doc)
    requires Candidate(d.row)
  {
    d.id in s.issued && (d.id in s.rows ==> s.rows[d.id] == d.row || s.rows[d.id] == Rehomed(d.row))
  }

  ghost predicate Reported(failures: seq<Failure>, from: nat, id: nat) {
    exists k :: from <= k < |failures| && failures[k].documentId == id
  }

  lemma ReportedGrows(failures: seq<Failure>, more: seq<Failure>, from: nat, id: nat)
    requires from <= |failures|
    ensures Reported(failures + more, from, id) <==> Reported(failures, from, id) || Reported(more, 0, id)
  {
    if Reported(failures, from, id) {
      var k :| from <= k < |failures| && failures[k].documentId == id;
      assert (failures + more)[k].documentId == id;
    }
    if Reported(more, 0, id) {
      var k :| 0 <= k < |more| && more[k].documentId == id;
      assert (failures + more)[|failures| + k].documentId == id;
    }
    if Reported(failures + more, from, id) {
      var k :| from <= k < |failures + more| && (failures + more)[k].documentId == id;
      if k >= |failures| {
        assert more[k - |failures|].documentId == id;
      }
    }
  }

  /** Every failure is filed for a row of the group, under the group's key. */
  ghost predicate FiledFor(failures: seq<Failure>, docs: seq<Doc>, path: string) {
    forall k :: 0 <= k < |failures| ==> failures[k].documentId in Ids(docs) && failures[k].path == path
  }

  /** And for each row at most one. */
  ghost predicate FiledOnce(failures: seq<Failure>, docs: seq<Doc>, path: string) {
    && FiledFor(failures, docs, path)
    && forall i, j :: 0 <= i < j < |failures| ==> failures[i].documentId != failures[j].documentId
  }

  lemma FiledTogether(failures: seq<Failure>, more: seq<Failure>, docs: seq<Doc>, path: string)
    requires FiledOnce(failures, docs, path) && FiledOnce(more, docs, path)
    requires forall id :: Reported(failures, 0, id) ==> !Reported(more, 0, id)
    ensures FiledOnce(failures + more, docs, path)
  {
    hide Ids;
    forall i, j | 0 <= i < |failures| && 0 <= j < |more|
      ensures failures[i].documentId != more[j].documentId
    {
      assert Reported(failures, 0, failures[i].documentId) && Reported(more, 0, more[j].documentId);
    }
  }

  lemma OneFiled(docs: seq<Doc>, i: nat, path: string, step: FailedStep)
    requires i < |docs|
    ensures FiledOnce([Failure(docs[i].id, path, step)], docs, path)
    ensures forall id :: Reported([Failure(docs[i].id, path, step)], 0, id) <==> docs[i].id == id
  {
    var one := [Failure(docs[i].id, path, step)];
    assert docs[i] in docs;
    forall id ensures Reported(one, 0, id) <==> docs[i].id == id {
      assert one[0].documentId == docs[i].id;
    }
  }

  /** One failure for every row, or for every row of one company. */
  method FailRows(docs: seq<Doc>, company: Option<string>, source: string, step: FailedStep)
      returns (failures: seq<Failure>)
    ensures forall id :: Reported(failures, 0, id) <==>
              exists d :: d in docs && d.id == id && (company.None? || d.row.company == company)
    ensures docs != [] && company.None? ==> failures != []
    ensures FiledFor(failures, docs, source) && forall f :: f in failures ==> f.step == step
    ensures DistinctIds(docs) ==> FiledOnce(failures, docs, source)
  {
    hide Ids, FiledFor, FiledOnce;
    NothingFiled(docs, source);
    failures := [];
    for i := 0 to |docs|
      invariant forall id :: Reported(failures, 0, id) <==>
                  exists j :: 0 <= j < i && docs[j].id == id && (company.None? || docs[j].row.company == company)
      invariant i > 0 && company.None? ==> failures != []
      invariant FiledFor(failures, docs, source) && forall f :: f in failures ==> f.step == step
      invariant DistinctIds(docs) ==> FiledOnce(failures, docs, source)
    {
      if company.None? || docs[i].row.company == company {
        ghost var before := failures;
        var failure := Failure(docs[i].id, source, step);
        failures := failures + [failure];
        OneFiled(docs, i, source, step);
        FiledForBoth(before, [failure], docs, source);
        forall id
          ensures Reported(failures, 0, id) <==> Reported(before, 0, id) || docs[i].id == id
        {
          ReportedGrows(before, [failure], 0, id);
        }
        if DistinctIds(docs) { FiledTogether(before, [failure], docs, source); }
      }
    }
  }

  lemma NothingFiled(docs: seq<Doc>, path: string)
    ensures FiledOnce([], docs, path) && FiledFor([], docs, path)
  {
  }

  lemma FiledForBoth(failures: seq<Failure>, more: seq<Failure>, docs: seq<Doc>, path: string)
    requires FiledFor(failures, docs, path)
    ensures FiledOnce(more, docs, path) ==> FiledFor(more, docs, path)
    ensures FiledFor(more, docs, path) || FiledOnce(more, docs, path) ==> FiledFor(failures + more, docs, path)
  {
  }

  /** The companies of the rows, in order of first appearance. */
  method DistinctCompanies(docs: seq<Doc>) returns (companies: seq<string>)
    requires forall d :: d in docs ==> d.row.company.Some?
    ensures Distinct(companies)
    ensures forall c :: c in companies <==> exists d :: d in docs && d.row.company == Some(c)
  {
    companies := [];
    for i := 0 to |docs|
      invariant Distinct(companies)
      invariant forall c :: c in companies <==> exists j :: 0 <= j < i && docs[j].row.company == Some(c)
    {
      assert docs[i] in docs;
      if docs[i].row.company.value !in companies {
        companies := companies + [docs[i].row.company.value];
      }
    }
  }

  // ----- 3 and 4: copy and verify, one target per company -----

  ghost predicate HasCompany(docs: seq<Doc>, company: string) {
    exists d :: d in docs && d.row.company == Some(company)
  }

  ghost predicate Covers(companies: seq<string>, docs: seq<Doc>) {
    forall d :: d in docs ==> d.row.company.Some? && d.row.company.value in companies
  }

  /** The migrated rows that still live carry their new pointer. */
  ghost predicate MovedRehomed(s: State, docs: seq<Doc>, moved: set<nat>) {
    forall d :: d in docs && Candidate(d.row) && d.id in moved && d.id in s.rows ==> s.rows[d.id] == Rehomed(d.row)
  }

  /** The rows that do not count as moved are, where they are live, as they were. */
  ghost predicate UnmovedStay(s: State, docs: seq<Doc>, moved: set<nat>) {
    forall d :: d in docs ==> d.id in s.issued && (d.id !in moved && d.id in s.rows ==> s.rows[d.id] == d.row)
  }

  lemma UnmovedLater(companies: set<string>, s: State, s': State, docs: seq<Doc>, moved: set<nat>)
    requires UnmovedStay(s, docs, moved) && RowsByOthers(companies, s, s', {})
    ensures UnmovedStay(s', docs, moved)
  {
  }

  lemma UnmovedThrough(companies: set<string>, s: State, s': State, s'': State, docs: seq<Doc>, moved: set<nat>)
    requires RowsByOthers(companies, s, s', {}) && (s'' == s' || RowsByOthers(companies, s', s'', {}))
    ensures UnmovedStay(s, docs, moved) ==> UnmovedStay(s'', docs, moved)
  {
    hide RowsByOthers, UnmovedStay;
    if UnmovedStay(s, docs, moved) {
      UnmovedLater(companies, s, s', docs, moved);
      if s'' != s' { UnmovedLater(companies, s', s'', docs, moved); }
    }
  }

  lemma UnmovedExtends(companies: set<string>, s: State, s': State, docs: seq<Doc>, i: nat, moved: set<nat>,
                       moves: bool)
    requires i < |docs| && DistinctIds(docs) && UnmovedStay(s, docs, moved)
    requires RowsByOthers(companies, s, s', {docs[i].id})
    requires !moves ==> docs[i].id !in s'.rows || s'.rows[docs[i].id] == docs[i].row
    ensures UnmovedStay(s', docs, if moves then moved + {docs[i].id} else moved)
  {
  }

  lemma GroupIsUnmoved(scope: Scope, s: State, source: string, docs: seq<Doc>)
    requires GroupOk(scope, s, source, docs)
    ensures UnmovedStay(s, docs, {})
  {
  }

  ghost function TargetKeys(docs: seq<Doc>): set<string> {
    set d | d in docs && Candidate(d.row) :: Target(d.row)
  }

  /** Keys present before are untouched; a new key is one of `keys` and holds the source bytes. */
  ghost predicate OnlyCopies(s: State, s': State, content: Bytes, keys: set<string>) {
    && (forall key :: key in s.objects ==> key in s'.objects && s'.objects[key] == s.objects[key])
    && (forall key :: key in s'.objects && key !in s.objects ==> key in keys && s'.objects[key] == content)
  }

  /** What the script knows about the target of one company. */
  ghost predicate TargetOk(s0: State, s: State, source: string, content: Bytes, company: string, t: TargetState) {
    && CompanyScopedPath(source, company) == Some(t.path)
    && t.path in s.objects
    && t.copyHash == Sha256(s.objects[t.path])
    && (t.uploadedThisRun ==> t.path !in s0.objects && s.objects[t.path] == content)
  }

  ghost predicate TargetsOk(s0: State, s: State, source: string, content: Bytes, docs: seq<Doc>,
                            targets: map<string, TargetState>) {
    forall c :: c in targets ==> HasCompany(docs, c) && TargetOk(s0, s, source, content, c, targets[c])
  }

  /** Two companies never copy one source to the same key. */
  lemma SourceTargetsDiffer(source: string, company0: string, company1: string)
    requires CompanyScopedPath(source, company0).Some?
    requires CompanyScopedPath(source, company0) == CompanyScopedPath(source, company1)
    ensures company0 == company1
  {
    var target := CompanyScopedPath(source, company0).value;
    assert |CompanyPrefix(company0)| == |CompanyPrefix(company1)|;
    assert target[|ROOT|..|ROOT| + |company0|] == company0;
    assert target[|ROOT|..|ROOT| + |company1|] == company1;
  }

  lemma TargetsDistinct(source: string, company0: string, company1: string)
    requires CompanyScopedPath(source, company0).Some?
    ensures company0 != company1 ==> CompanyScopedPath(source, company0) != CompanyScopedPath(source, company1)
  {
    if CompanyScopedPath(source, company0) == CompanyScopedPath(source, company1) {
      SourceTargetsDiffer(source, company0, company1);
    }
  }

  /** Copy the source to one company's key unless it is there already, then read it back. */
  method CopyTarget(store: Store, source: string, content: Bytes, doc: Doc, target: string)
      returns (result: Option<TargetState>, step: FailedStep, aborted: bool)
    requires store.Valid()
    requires AtSource(store.scope, source, doc) && Known(store.Now(), doc) && target == Target(doc.row)
    requires Promised(store.scope, store.start, doc.row)
    requires source in store.objects && store.objects[source] == content
    modifies store
    ensures store.Valid() && old(store.trace) <= store.trace
    ensures RowsByOthers(store.scope.companies, old(store.Now()), store.Now(), {})
    ensures store.objects == old(store.objects)
            || (target !in old(store.objects) && store.objects == old(store.objects)[target := content])
    ensures result.Some? ==>
              TargetOk(old(store.Now()), store.Now(), source, content, doc.row.company.value, result.value)
    ensures result.Some? ==> result.value.repointed == 0 && !aborted
    ensures result.Some? && target !in old(store.objects) ==> result.value.uploadedThisRun
    ensures store.faultless ==> old(store.faultless)
    ensures store.faultless ==> result.Some? && !aborted
    // unless a call fails that can leave one behind, a copy made is a target
    ensures store.leaks >= old(store.leaks)
    ensures store.leaks == old(store.leaks) ==> !aborted && (result.Some? || store.objects == old(store.objects))
    // a copy that cannot be read back stays where it is
    ensures result.None? && !aborted && step == VerifyReadable ==> target in store.objects
    ensures store.undisturbed ==>
              old(store.undisturbed) && store.rows == old(store.rows) && store.issued == old(store.issued)
    ensures target in old(store.objects) ==> store.writes == old(store.writes)
  {
    ghost var s0 := store.Now();
    result, step, aborted := None, UploadCopy, false;
    var present := store.Exists(target);
    if !present.Ok? { return; }
    var uploadedThisRun := false;
    ghost var s1 := store.Now();
    RowsByOthersTransitive(store.scope.companies, s0, s0, s1, {});
    if !present.value {
      var uploaded, mid := store.Upload(doc, content);
      RowsByOthersTransitive(store.scope.companies, s0, s1, mid, {});
      if !uploaded.Ok? { return; }
      uploadedThisRun := true;
    }
    ghost var s2 := store.Now();
    var copy := store.Download(target);
    RowsByOthersTransitive(store.scope.companies, s0, s2, store.Now(), {});
    if copy.Threw? {
      aborted := true;
    } else if copy.Err? {
      step := VerifyReadable;
    } else {
      result := Some(TargetState(target, Sha256(copy.value), uploadedThisRun, 0));
    }
  }

  /** The targets of the companies handled so far; the others' rows are not reported yet. */
  ghost predicate Copied(s0: State, s: State, source: string, content: Bytes, docs: seq<Doc>,
                         done: seq<string>, targets: map<string, TargetState>) {
    && OnlyCopies(s0, s, content, TargetKeys(docs))
    && TargetsOk(s0, s, source, content, docs, targets)
    && forall c :: c in targets ==> c in done && targets[c].repointed == 0
  }

  /** Every object the copying created is a target the script will remember having uploaded. */
  ghost predicate CopiesTracked(s0: State, s: State, targets: map<string, TargetState>) {
    forall key :: key in s.objects && key !in s0.objects ==>
      exists c :: c in targets && targets[c].uploadedThisRun && targets[c].path == key
  }

  ghost predicate Missing(docs: seq<Doc>, done: seq<string>, targets: map<string, TargetState>, id: nat) {
    exists d :: d in docs && d.id == id && d.row.company.Some?
                && d.row.company.value in done && d.row.company.value !in targets
  }

  lemma CopiedExtends(s0: State, s1: State, s2: State, source: string, content: Bytes, docs: seq<Doc>,
                      done: seq<string>, targets: map<string, TargetState>, company: string, key: string,
                      result: Option<TargetState>)
    requires Copied(s0, s1, source, content, docs, done, targets)
    requires HasCompany(docs, company) && company !in done
    requires CompanyScopedPath(source, company) == Some(key) && key in TargetKeys(docs)
    requires s2.objects == s1.objects || (key !in s1.objects && s2.objects == s1.objects[key := content])
    requires result.Some? ==> TargetOk(s1, s2, source, content, company, result.value) && result.value.repointed == 0
    ensures Copied(s0, s2, source, content, docs, done + [company],
                   if result.Some? then targets[company := result.value] else targets)
  {
  }

  lemma CopiesTrackedExtends(s0: State, s1: State, s2: State, content: Bytes,
                             targets: map<string, TargetState>, company: string, key: string, t: TargetState)
    requires CopiesTracked(s0, s1, targets) && company !in targets
    requires s2.objects == s1.objects
             || (key !in s1.objects && s2.objects == s1.objects[key := content] && t.uploadedThisRun)
    requires t.path == key
    ensures CopiesTracked(s0, s2, targets[company := t])
  {
    var targets' := targets[company := t];
    forall k | k in s2.objects && k !in s0.objects
      ensures exists c :: c in targets' && targets'[c].uploadedThisRun && targets'[c].path == k
    {
      if k in s1.objects {
        var c :| c in targets && targets[c].uploadedThisRun && targets[c].path == k;
        assert c in targets' && targets'[c].uploadedThisRun && targets'[c].path == k;
      } else {
        assert company in targets' && targets'[company].uploadedThisRun && targets'[company].path == k;
      }
    }
  }

  lemma StillTracked(s0: State, s1: State, s2: State, targets: map<string, TargetState>)
    requires CopiesTracked(s0, s1, targets) && s2.objects == s1.objects
    ensures CopiesTracked(s0, s2, targets)
  {
  }

  lemma ReportsExtend(failures: seq<Failure>, reports: seq<Failure>, docs: seq<Doc>, done: seq<string>,
                      company: string, targets: map<string, TargetState>)
    requires forall id :: Reported(failures, 0, id) <==> Missing(docs, done, targets, id)
    requires forall id :: Reported(reports, 0, id) <==>
               exists d :: d in docs && d.id == id && d.row.company == Some(company)
    requires company !in targets
    ensures forall id :: Reported(failures + reports, 0, id) <==> Missing(docs, done + [company], targets, id)
    ensures DistinctIds(docs) && company !in done ==>
              forall id :: Reported(failures, 0, id) ==> !Reported(reports, 0, id)
  {
    forall id
      ensures Reported(failures + reports, 0, id) <==> Missing(docs, done + [company], targets, id)
    {
      ReportedGrows(failures, reports, 0, id);
    }
  }

  lemma GroupIsDistinct(scope: Scope, s: State, source: string, docs: seq<Doc>)
    requires GroupOk(scope, s, source, docs)
    ensures DistinctIds(docs)
  {
  }

  lemma CoverageExtends(docs: seq<Doc>, done: seq<string>, company: string, targets: map<string, TargetState>,
                        t: TargetState)
    requires company !in done
    ensures forall id :: Missing(docs, done, targets, id) <==>
              Missing(docs, done + [company], targets[company := t], id)
  {
    forall id
      ensures Missing(docs, done, targets, id) <==> Missing(docs, done + [company], targets[company := t], id)
    {
      if d :| && d in docs && d.id == id && d.row.company.Some?
              && d.row.company.value in done && d.row.company.value !in targets {
        assert d.row.company.value in done + [company] && d.row.company.value !in targets[company := t];
      }
    }
  }

  method CopyTargets(store: Store, source: string, content: Bytes, docs: seq<Doc>)
      returns (companies: seq<string>, targets: map<string, TargetState>, failures: seq<Failure>, aborted: bool)
    requires store.Valid() && GroupOk(store.scope, store.Now(), source, docs)
    requires AllPromised(store.scope, store.start, docs)
    requires source in store.objects && store.objects[source] == content
    modifies store
    ensures store.Valid() && old(store.trace) <= store.trace
    ensures RowsByOthers(store.scope.companies, old(store.Now()), store.Now(), {})
    ensures Copied(old(store.Now()), store.Now(), source, content, docs, companies, targets)
    ensures Distinct(companies) && Covers(companies, docs)
    ensures !aborted ==> forall id :: Reported(failures, 0, id) <==> Missing(docs, companies, targets, id)
    ensures FiledOnce(failures, docs, source)
    ensures store.faultless ==> old(store.faultless)
    ensures store.leaks >= old(store.leaks)
    ensures store.faultless ==> !aborted && forall c :: c in companies ==> c in targets
    ensures store.leaks == old(store.leaks) ==>
              !aborted && CopiesTracked(old(store.Now()), store.Now(), targets)
    ensures store.undisturbed ==>
              old(store.undisturbed) && store.rows == old(store.rows) && store.issued == old(store.issued)
    ensures (forall key :: key in TargetKeys(docs) ==> key in old(store.objects)) ==> store.writes == old(store.writes)
  {
    hide Trace, Quiet, Step, Licensed, LegacyKey, UploaderScoped, LayoutOk;
    ghost var s0 := store.Now();
    hide FiledOnce;
    NothingFiled(docs, source);
    companies := DistinctCompanies(docs);
    targets, failures, aborted := map[], [], false;
    for i := 0 to |companies|
      invariant store.Valid() && old(store.trace) <= store.trace
      invariant RowsByOthers(store.scope.companies, s0, store.Now(), {})
      invariant Copied(s0, store.Now(), source, content, docs, companies[..i], targets)
      invariant !aborted && FiledOnce(failures, docs, source)
      invariant forall id :: Reported(failures, 0, id) <==> Missing(docs, companies[..i], targets, id)
      invariant store.faultless ==> old(store.faultless)
      invariant store.leaks >= old(store.leaks)
      invariant store.faultless ==> forall c :: c in companies[..i] ==> c in targets
      invariant store.leaks == old(store.leaks) ==> CopiesTracked(s0, store.Now(), targets)
      invariant store.undisturbed ==> old(store.undisturbed) && store.rows == s0.rows && store.issued == s0.issued
      invariant (forall key :: key in TargetKeys(docs) ==> key in s0.objects) ==> store.writes == old(store.writes)
    {
      assert companies[i] in companies;
      aborted, targets, failures := CopyCompany(store, s0, source, content, docs, companies, i, targets, failures);
      if aborted { return; }
    }
    assert companies[..|companies|] == companies;
  }

  /** What the next copy needs, from what the earlier ones left. */
  lemma CopyIsReady(scope: Scope, s0: State, s: State, source: string, content: Bytes, docs: seq<Doc>,
                    companies: seq<string>,
                    i: nat, targets: map<string, TargetState>, doc: Doc)
    requires GroupOk(scope, s0, source, docs) && source in s0.objects && s0.objects[source] == content
    requires Distinct(companies) && i < |companies| && doc in docs && doc.row.company == Some(companies[i])
    requires RowsByOthers(scope.companies, s0, s, {}) && Copied(s0, s, source, content, docs, companies[..i], targets)
    ensures AtSource(scope, source, doc) && Known(s, doc)
            && CompanyScopedPath(source, companies[i]) == Some(Target(doc.row))
    ensures source in s.objects && s.objects[source] == content
    ensures Target(doc.row) in TargetKeys(docs) && companies[i] !in companies[..i] && companies[i] !in targets
    ensures companies[..i + 1] == companies[..i] + [companies[i]]
    ensures forall key :: key in s0.objects ==> key in s.objects
  {
  }

  method CopyCompany(store: Store, ghost s0: State, source: string, content: Bytes, docs: seq<Doc>,
                     companies: seq<string>, i: nat, targets: map<string, TargetState>, failures: seq<Failure>)
      returns (aborted: bool, targets': map<string, TargetState>, failures': seq<Failure>)
    requires store.Valid() && GroupOk(store.scope, s0, source, docs) && AllPromised(store.scope, store.start, docs)
    requires source in s0.objects && s0.objects[source] == content
    requires Distinct(companies) && i < |companies| && HasCompany(docs, companies[i])
    requires RowsByOthers(store.scope.companies, s0, store.Now(), {})
    requires Copied(s0, store.Now(), source, content, docs, companies[..i], targets)
    requires forall id :: Reported(failures, 0, id) <==> Missing(docs, companies[..i], targets, id)
    requires FiledOnce(failures, docs, source)
    modifies store
    ensures store.Valid() && old(store.trace) <= store.trace
    ensures RowsByOthers(store.scope.companies, s0, store.Now(), {})
    ensures FiledOnce(failures', docs, source)
    ensures Copied(s0, store.Now(), source, content, docs, companies[..i + 1], targets')
    ensures !aborted ==> forall id :: Reported(failures', 0, id) <==> Missing(docs, companies[..i + 1], targets', id)
    ensures store.faultless ==> old(store.faultless)
    ensures store.leaks >= old(store.leaks)
    ensures store.faultless ==> targets'.Keys == targets.Keys + {companies[i]}
    ensures store.leaks == old(store.leaks) ==> !aborted
    ensures store.leaks == old(store.leaks) && CopiesTracked(s0, old(store.Now()), targets) ==>
              CopiesTracked(s0, store.Now(), targets')
    ensures store.undisturbed ==>
              old(store.undisturbed) && store.rows == old(store.rows) && store.issued == old(store.issued)
    ensures (forall key :: key in TargetKeys(docs) ==> key in s0.objects) ==> store.writes == old(store.writes)
  {
    hide Trace, Quiet, Step, Licensed, Store.Valid, LegacyKey, UploaderScoped, LayoutOk;
    hide Copied, CopiesTracked, Missing, GroupOk, RowsByOthers, TargetOk, FiledOnce, FiledFor, DistinctIds;
    targets', failures' := targets, failures;
    var company := companies[i];
    var doc :| doc in docs && doc.row.company == Some(company);
    ghost var s1 := store.Now();
    CopyIsReady(store.scope, s0, s1, source, content, docs, companies, i, targets, doc);
    var target := CompanyScopedPath(source, company).value;
    var result, step;
    result, step, aborted := CopyTarget(store, source, content, doc, target);
    RowsByOthersTransitive(store.scope.companies, s0, s1, store.Now(), {});
    CopiedExtends(s0, s1, store.Now(), source, content, docs, companies[..i], targets, company, target, result);
    if aborted { return; }
    if result.None? {
      var reports := FailRows(docs, Some(company), source, step);
      GroupIsDistinct(store.scope, s0, source, docs);
      ReportsExtend(failures, reports, docs, companies[..i], company, targets);
      FiledTogether(failures, reports, docs, source);
      failures' := failures + reports;
      if store.leaks == old(store.leaks) && CopiesTracked(s0, s1, targets) {
        StillTracked(s0, s1, store.Now(), targets);
      }
    } else {
      CoverageExtends(docs, companies[..i], company, targets, result.value);
      if store.leaks == old(store.leaks) && CopiesTracked(s0, s1, targets) {
        CopiesTrackedExtends(s0, s1, store.Now(), content, targets, company, target, result.value);
      }
      targets' := targets[company := result.value];
    }
  }

  // ----- 5: repoint every row -----

  /** Update the pointer of one row, if the copy has the bytes the row expects. */
  method RepointRow(store: Store, source: string, content: Bytes, doc: Doc, t: TargetState)
      returns (moved: bool, step: FailedStep, aborted: bool)
    requires store.Valid()
    requires AtSource(store.scope, source, doc) && Known(store.Now(), doc)
    requires source in store.objects && store.objects[source] == content
    requires t.path == Target(doc.row) && t.path in store.objects && t.copyHash == Sha256(store.objects[t.path])
    modifies store
    ensures store.Valid() && old(store.trace) <= store.trace
    ensures store.objects == old(store.objects)
    ensures RowsByOthers(store.scope.companies, old(store.Now()), store.Now(), {doc.id}) && Tracked(store.Now(), doc)
    ensures moved ==> !aborted && SeenAt(store.trace, |old(store.trace)|, doc.id, t.path)
    ensures moved ==> doc.id in store.rows ==> store.rows[doc.id] == Rehomed(doc.row)
    ensures step == if Fits(doc.row, content, t.copyHash) then UpdatePointer else VerifyHash
    ensures store.faultless ==> old(store.faultless)
    ensures store.leaks == old(store.leaks) + (if aborted then 1 else 0)
    ensures store.faultless && !moved ==> doc.id !in store.rows || !Fits(doc.row, content, t.copyHash)
    ensures store.faultless && !moved ==> doc.id !in store.rows || store.rows[doc.id] == doc.row
    ensures store.undisturbed ==>
              old(store.undisturbed) && store.rows.Keys == old(store.rows).Keys && store.issued == old(store.issued)
    ensures store.undisturbed ==>
              forall id :: id in store.rows && id != doc.id ==> store.rows[id] == old(store.rows)[id]
    ensures store.Clean() && !moved && doc.id in store.rows ==>
              store.rows[doc.id] == doc.row && !Fits(doc.row, content, t.copyHash)
    ensures !Fits(doc.row, content, t.copyHash) ==>
              !moved && store.writes == old(store.writes) && store.Now() == old(store.Now())
  {
    hide Trace, Quiet, Step, LegacyKey, UploaderScoped, LayoutOk;
    moved, step, aborted := false, VerifyHash, false;
    if t.copyHash != Expected(doc.row, content) { return; }
    step := UpdatePointer;
    var updated, mid := store.Repoint(doc);
    if updated.Threw? {
      aborted := true;
    } else if updated.Ok? && updated.value != 0 {
      moved := true;
      assert RowAt(store.trace[|store.trace| - 1].state, doc.id, t.path);
    }
  }

  /** The first `i` rows are done; those in `moved` were repointed. */
  ghost predicate Repointing(companies: set<string>, s0: State, s: State, docs: seq<Doc>, i: nat, moved: set<nat>) {
    && s.objects == s0.objects
    && RowsByOthers(companies, s0, s, Ids(docs))
    && moved <= Ids(docs)
    && forall j :: 0 <= j < |docs| ==>
         && Candidate(docs[j].row)
         && Tracked(s, docs[j])
         && (j >= i ==> Known(s, docs[j]) && docs[j].id !in moved)
         && (docs[j].id in moved && docs[j].id in s.rows ==> s.rows[docs[j].id] == Rehomed(docs[j].row))
  }

  lemma RepointingExtends(companies: set<string>, s0: State, s1: State, s2: State, docs: seq<Doc>, i: nat,
                          moved: set<nat>, moves: bool)
    requires DistinctIds(docs) && i < |docs|
    requires Repointing(companies, s0, s1, docs, i, moved)
    requires s2.objects == s1.objects && RowsByOthers(companies, s1, s2, {docs[i].id})
    requires Tracked(s2, docs[i])
    requires moves && docs[i].id in s2.rows ==> s2.rows[docs[i].id] == Rehomed(docs[i].row)
    ensures Repointing(companies, s0, s2, docs, i + 1, if moves then moved + {docs[i].id} else moved)
  {
    assert docs[i] in docs;
    assert docs[i].id in Ids(docs);
    RowsByOthersTransitive(companies, s0, s1, s2, Ids(docs));
    forall j | 0 <= j < |docs| && j != i
      ensures docs[j].id in s2.rows ==> docs[j].id in s1.rows && s2.rows[docs[j].id] == s1.rows[docs[j].id]
    {
      assert docs[j].id != docs[i].id;
    }
  }

  /** Every row without a target, and every handled row that was not repointed, is reported. */
  ghost predicate ReportsOk(failures: seq<Failure>, docs: seq<Doc>, targets: map<string, TargetState>, i: nat,
                            moved: set<nat>) {
    forall j :: 0 <= j < |docs| && docs[j].row.company.Some? ==>
      (Reported(failures, 0, docs[j].id) <==>
         docs[j].row.company.value !in targets || (j < i && docs[j].id !in moved))
  }

  lemma ReportsOkStart(failures: seq<Failure>, docs: seq<Doc>, companies: seq<string>,
                       targets: map<string, TargetState>)
    requires DistinctIds(docs)
    requires Covers(companies, docs)
    requires forall id :: Reported(failures, 0, id) <==> Missing(docs, companies, targets, id)
    ensures ReportsOk(failures, docs, targets, 0, {})
  {
    forall j | 0 <= j < |docs|
      ensures Reported(failures, 0, docs[j].id) <==> docs[j].row.company.value !in targets
    {
      assert docs[j] in docs;
    }
  }

  lemma ReportsOkExtends(failures: seq<Failure>, docs: seq<Doc>, targets: map<string, TargetState>, i: nat,
                         moved: set<nat>,
                         moves: bool, failure: Failure)
    requires DistinctIds(docs) && i < |docs|
    requires docs[i].row.company.Some? && docs[i].row.company.value in targets && docs[i].id !in moved
    requires ReportsOk(failures, docs, targets, i, moved)
    requires failure.documentId == docs[i].id
    ensures moves ==>
              ReportsOk(failures, docs, CountMove(targets, docs[i].row.company.value), i + 1, moved + {docs[i].id})
    ensures !moves ==> ReportsOk(failures + [failure], docs, targets, i + 1, moved)
    ensures !Reported(failures, 0, docs[i].id)
  {
    forall j | 0 <= j < |docs|
      ensures Reported(failures + [failure], 0, docs[j].id) <==> Reported(failures, 0, docs[j].id) || j == i
    {
      ReportedGrows(failures, [failure], 0, docs[j].id);
      assert Reported([failure], 0, docs[j].id) <==> j == i by {
        assert [failure][0].documentId == docs[i].id;
      }
    }
  }

  /** Only the repoint counters of the targets changed, and a counted target was pointed at. */
  ghost predicate Counted(targets0: map<string, TargetState>, targets: map<string, TargetState>, trace: seq<Entry>,
                          from: nat) {
    && targets.Keys == targets0.Keys
    && forall c :: c in targets ==>
         && targets[c] == targets0[c].(repointed := targets[c].repointed)
         && (targets[c].repointed > 0 ==> PointedSince(trace, from, targets[c].path))
  }

  /** A row counted as migrated was live with its new pointer. */
  ghost predicate MovedSeen(docs: seq<Doc>, moved: set<nat>, trace: seq<Entry>, from: nat) {
    forall d :: d in docs && Candidate(d.row) && d.id in moved ==> SeenAt(trace, from, d.id, Target(d.row))
  }

  lemma SeenLater(docs: seq<Doc>, moved: set<nat>, targets0: map<string, TargetState>,
                  targets: map<string, TargetState>,
                  trace: seq<Entry>, longer: seq<Entry>, from: nat)
    requires trace <= longer
    ensures Counted(targets0, targets, trace, from) ==> Counted(targets0, targets, longer, from)
    ensures MovedSeen(docs, moved, trace, from) ==> MovedSeen(docs, moved, longer, from)
  {
    forall id, key | SeenAt(trace, from, id, key) ensures SeenAt(longer, from, id, key) {
      SeenGrows(trace, longer, from, id, key);
    }
    forall key | PointedSince(trace, from, key) ensures PointedSince(longer, from, key) {
      var id :| SeenAt(trace, from, id, key);
      assert SeenAt(longer, from, id, key);
    }
  }

  /** A row that can be moved has been: what is left was deleted or has a copy with other bytes. */
  ghost predicate LeftOver(s: State, content: Bytes, docs: seq<Doc>, targets: map<string, TargetState>, i: nat,
                           moved: set<nat>) {
    forall j :: 0 <= j < i && j < |docs| && docs[j].id !in moved
                && docs[j].row.company.Some? && docs[j].row.company.value in targets ==>
      || docs[j].id !in s.rows
      || (&& s.rows[docs[j].id] == docs[j].row
          && !Fits(docs[j].row, content, targets[docs[j].row.company.value].copyHash))
  }

  lemma LeftOverExtends(s1: State, s2: State, content: Bytes, docs: seq<Doc>, targets: map<string, TargetState>,
                        targets': map<string, TargetState>, i: nat, moved: set<nat>, moves: bool)
    requires DistinctIds(docs) && i < |docs| && docs[i].row.company.Some? && docs[i].row.company.value in targets
    requires LeftOver(s1, content, docs, targets, i, moved)
    requires targets'.Keys == targets.Keys && forall c :: c in targets ==> targets'[c].copyHash == targets[c].copyHash
    requires forall id :: id in s2.rows && id != docs[i].id ==> id in s1.rows && s2.rows[id] == s1.rows[id]
    requires !moves && docs[i].id in s2.rows ==>
               s2.rows[docs[i].id] == docs[i].row
                   && !Fits(docs[i].row, content, targets[docs[i].row.company.value].copyHash)
    ensures LeftOver(s2, content, docs, targets', i + 1, if moves then moved + {docs[i].id} else moved)
  {
    forall j | 0 <= j < i && docs[j].row.company.Some? && docs[j].row.company.value in targets && docs[j].id !in moved
      ensures docs[j].id !in s2.rows
              || (s2.rows[docs[j].id] == docs[j].row
                  && !Fits(docs[j].row, content, targets'[docs[j].row.company.value].copyHash))
    {
      assert docs[j].id != docs[i].id;
    }
  }

  ghost predicate NoneMatch(content: Bytes, docs: seq<Doc>, targets: map<string, TargetState>) {
    forall d :: d in docs && d.row.company.Some? && d.row.company.value in targets ==>
      !Fits(d.row, content, targets[d.row.company.value].copyHash)
  }

  /** What holds once the first `i` rows have been handled. */
  ghost predicate RowsHandled(scope: Scope, s0: State, s: State, content: Bytes, docs: seq<Doc>, i: nat,
                              targets0: map<string, TargetState>, targets: map<string, TargetState>,
                              moved: set<nat>, trace: seq<Entry>, from: nat) {
    && Repointing(scope.companies, s0, s, docs, i, moved)
    && MovedSeen(docs, moved, trace, from)
    && Counted(targets0, targets, trace, from)
    && forall d :: d in docs && d.id in moved ==>
         && d.row.company.Some? && d.row.company.value in targets
         && targets[d.row.company.value].repointed > 0
         && Fits(d.row, content, targets[d.row.company.value].copyHash)
  }

  lemma RowHandled(scope: Scope, s0: State, s1: State, s2: State, content: Bytes, docs: seq<Doc>, i: nat,
                   targets0: map<string, TargetState>, targets: map<string, TargetState>, moved: set<nat>, moves: bool,
                   trace: seq<Entry>, longer: seq<Entry>, from: nat)
    requires DistinctIds(docs) && i < |docs| && docs[i].row.company.Some? && docs[i].row.company.value in targets
    requires RowsHandled(scope, s0, s1, content, docs, i, targets0, targets, moved, trace, from)
    requires s2.objects == s1.objects && RowsByOthers(scope.companies, s1, s2, {docs[i].id})
    requires Candidate(docs[i].row) && Tracked(s2, docs[i]) && trace <= longer
    requires Target(docs[i].row) == targets[docs[i].row.company.value].path
    requires moves ==> SeenAt(longer, from, docs[i].id, Target(docs[i].row))
    requires moves && docs[i].id in s2.rows ==> s2.rows[docs[i].id] == Rehomed(docs[i].row)
    requires moves ==> Fits(docs[i].row, content, targets[docs[i].row.company.value].copyHash)
    ensures !moves ==> RowsHandled(scope, s0, s2, content, docs, i + 1, targets0, targets, moved, longer, from)
    ensures moves ==>
              RowsHandled(scope, s0, s2, content, docs, i + 1, targets0, CountMove(targets, docs[i].row.company.value),
                                  moved + {docs[i].id}, longer, from)
    ensures docs[i].id !in moved
  {
    RepointingExtends(scope.companies, s0, s1, s2, docs, i, moved, moves);
    SeenLater(docs, moved, targets0, targets, trace, longer, from);
    if moves {
      assert PointedSince(longer, from, targets[docs[i].row.company.value].path);
    }
  }

  function CountMove(targets: map<string, TargetState>, company: string): map<string, TargetState>
    requires company in targets
  {
    targets[company := targets[company].(repointed := targets[company].repointed + 1)]
  }

  lemma NextIsKnown(scope: Scope, s0: State, s: State, content: Bytes, docs: seq<Doc>, i: nat,
                    targets0: map<string, TargetState>, targets: map<string, TargetState>, moved: set<nat>,
                    trace: seq<Entry>, from: nat)
    requires i < |docs| && RowsHandled(scope, s0, s, content, docs, i, targets0, targets, moved, trace, from)
    ensures Known(s, docs[i]) && docs[i].id !in moved
  {
  }

  lemma SeenEarlier(trace: seq<Entry>, from: nat, from': nat, id: nat, key: string)
    requires SeenAt(trace, from', id, key) && from <= from'
    ensures SeenAt(trace, from, id, key)
  {
    var k :| from' <= k < |trace| && RowAt(trace[k].state, id, key);
    assert RowAt(trace[k].state, id, key);
  }

  method RepointNext(store: Store, ghost s0: State, ghost from: nat, source: string, content: Bytes, docs: seq<Doc>,
                     i: nat,
                     ghost targets0: map<string, TargetState>, targets: map<string, TargetState>,
                     failures: seq<Failure>, ghost moved: set<nat>)
      returns (aborted: bool, moves: bool, targets': map<string, TargetState>, failures': seq<Failure>,
          ghost moved': set<nat>)
    requires store.Valid() && i < |docs| && DistinctIds(docs)
    requires AtSource(store.scope, source, docs[i]) && from <= |store.trace|
    requires source in store.objects && store.objects[source] == content
    requires RowsHandled(store.scope, s0, store.Now(), content, docs, i, targets0, targets, moved, store.trace, from)
    requires ReportsOk(failures, docs, targets, i, moved) && FiledOnce(failures, docs, source)
    requires docs[i].row.company.value in targets
    requires var t := targets[docs[i].row.company.value];
             t.path == Target(docs[i].row) && t.path in store.objects && t.copyHash == Sha256(store.objects[t.path])
    modifies store
    ensures store.Valid() && old(store.trace) <= store.trace
    ensures RowsHandled(store.scope, s0, store.Now(), content, docs, i + 1, targets0, targets', moved', store.trace,
            from)
    ensures |moved'| == |moved| + (if moves then 1 else 0) && (moves || moved' == moved)
    ensures !aborted ==> ReportsOk(failures', docs, targets', i + 1, moved')
    ensures store.faultless && UnmovedStay(old(store.Now()), docs, moved) ==> UnmovedStay(store.Now(), docs, moved')
    ensures FiledOnce(failures', docs, source)
    ensures failures' == if moves || aborted then failures else
                           var fits := Fits(docs[i].row, content, targets[docs[i].row.company.value].copyHash);
                           failures + [Failure(docs[i].id, source, if fits then UpdatePointer else VerifyHash)]
    ensures store.faultless ==> old(store.faultless)
    ensures store.leaks >= old(store.leaks) && (store.leaks == old(store.leaks) ==> !aborted)
    ensures store.Clean() && LeftOver(old(store.Now()), content, docs, targets, i, moved) ==>
              LeftOver(store.Now(), content, docs, targets', i + 1, moved')
    ensures store.undisturbed ==>
              old(store.undisturbed) && store.rows.Keys == old(store.rows).Keys && store.issued == old(store.issued)
    ensures !Fits(docs[i].row, content, targets[docs[i].row.company.value].copyHash) ==>
              !moves && store.writes == old(store.writes) && store.Now() == old(store.Now())
  {
    hide Trace, Quiet, Step, Licensed, LegacyKey, UploaderScoped, LayoutOk, CompanyScopedPath, IsCompanyScoped,
         IsDocumentPath;
    hide LeftOver, RowsHandled, ReportsOk, RowsByOthers, SeenAt, FiledOnce, UnmovedStay;
    targets', failures', moved' := targets, failures, moved;
    var doc := docs[i];
    ghost var s1, trace1 := store.Now(), store.trace;
    NextIsKnown(store.scope, s0, s1, content, docs, i, targets0, targets, moved, trace1, from);
    var step;
    moves, step, aborted := RepointRow(store, source, content, doc, targets[doc.row.company.value]);
    if moves { SeenEarlier(store.trace, from, |trace1|, doc.id, Target(doc.row)); }
    if store.faultless && UnmovedStay(s1, docs, moved) {
      UnmovedExtends(store.scope.companies, s1, store.Now(), docs, i, moved, moves);
    }
    RowHandled(store.scope, s0, s1, store.Now(), content, docs, i, targets0, targets, moved, moves, trace1,
        store.trace, from);
    var failure := Failure(doc.id, source, step);
    ReportsOkExtends(failures, docs, targets, i, moved, moves, failure);
    OneFiled(docs, i, source, step);
    FiledTogether(failures, [failure], docs, source);
    if moves {
      moved' := moved + {doc.id};
      targets' := CountMove(targets, doc.row.company.value);
    } else if !aborted {
      failures' := failures + [failure];
    }
    if store.Clean() && LeftOver(s1, content, docs, targets, i, moved) {
      LeftOverExtends(s1, store.Now(), content, docs, targets, targets', i, moved, moves);
    }
  }

  /** A row whose company has no target is passed over. */
  lemma RowSkipped(scope: Scope, s0: State, s: State, content: Bytes, docs: seq<Doc>, i: nat,
                   targets0: map<string, TargetState>, targets: map<string, TargetState>,
                   moved: set<nat>, trace: seq<Entry>, from: nat, failures: seq<Failure>)
    requires DistinctIds(docs) && i < |docs| && docs[i].row.company.Some? && docs[i].row.company.value !in targets
    requires RowsHandled(scope, s0, s, content, docs, i, targets0, targets, moved, trace, from)
    requires s.rows.Keys <= s.issued
    ensures RowsHandled(scope, s0, s, content, docs, i + 1, targets0, targets, moved, trace, from)
    ensures ReportsOk(failures, docs, targets, i, moved) ==> ReportsOk(failures, docs, targets, i + 1, moved)
    ensures LeftOver(s, content, docs, targets, i, moved) ==> LeftOver(s, content, docs, targets, i + 1, moved)
  {
    RepointingExtends(scope.companies, s0, s, s, docs, i, moved, false);
  }

  lemma HandledSoFar(scope: Scope, s0: State, s: State, content: Bytes, docs: seq<Doc>, i: nat,
                     targets0: map<string, TargetState>, targets: map<string, TargetState>,
                     moved: set<nat>, trace: seq<Entry>, from: nat)
    requires i <= |docs| && RowsHandled(scope, s0, s, content, docs, i, targets0, targets, moved, trace, from)
    ensures RowsHandled(scope, s0, s, content, docs, |docs|, targets0, targets, moved, trace, from)
  {
  }

  lemma NothingHandled(scope: Scope, s: State, source: string, content: Bytes, docs: seq<Doc>,
                       targets: map<string, TargetState>,
                       trace: seq<Entry>)
    requires GroupOk(scope, s, source, docs) && s.rows.Keys <= s.issued
    requires forall c :: c in targets ==> targets[c].repointed == 0
    ensures RowsHandled(scope, s, s, content, docs, 0, targets, targets, {}, trace, |trace|)
    ensures LeftOver(s, content, docs, targets, 0, {})
  {
    assert forall j :: 0 <= j < |docs| ==> docs[j] in docs;
  }

  lemma TargetKnown(scope: Scope, sc: State, s0: State, s: State, source: string, content: Bytes, docs: seq<Doc>,
                    i: nat,
                    companies: seq<string>, targets0: map<string, TargetState>, targets: map<string, TargetState>,
                    moved: set<nat>, trace: seq<Entry>, from: nat, d: Doc)
    requires Copied(sc, s0, source, content, docs, companies, targets0)
    requires RowsHandled(scope, s0, s, content, docs, i, targets0, targets, moved, trace, from)
    requires Candidate(d.row) && d.row.path == Some(source) && d.row.company.value in targets
    ensures var t := targets[d.row.company.value];
            t.path == Target(d.row) && t.path in s.objects && t.copyHash == Sha256(s.objects[t.path])
    ensures s.objects == s0.objects && targets.Keys == targets0.Keys
    ensures targets[d.row.company.value].copyHash == targets0[d.row.company.value].copyHash
  {
  }

  method RepointRows(store: Store, source: string, content: Bytes, docs: seq<Doc>, companies: seq<string>,
                     targets0: map<string, TargetState>, failures0: seq<Failure>, ghost sc: State)
      returns (targets: map<string, TargetState>, migrated: nat, failures: seq<Failure>, aborted: bool,
          ghost moved: set<nat>)
    requires store.Valid() && GroupOk(store.scope, store.Now(), source, docs)
    requires source in store.objects && store.objects[source] == content
    requires Copied(sc, store.Now(), source, content, docs, companies, targets0)
    requires forall c :: c in targets0 ==> targets0[c].repointed == 0
    requires Covers(companies, docs)
    requires forall id :: Reported(failures0, 0, id) <==> Missing(docs, companies, targets0, id)
    requires FiledOnce(failures0, docs, source)
    modifies store
    ensures store.Valid() && old(store.trace) <= store.trace
    ensures FiledOnce(failures, docs, source)
    ensures store.faultless ==> !aborted && UnmovedStay(store.Now(), docs, moved)
    ensures RowsHandled(store.scope, old(store.Now()), store.Now(), content, docs, |docs|, targets0, targets, moved,
                        store.trace, |old(store.trace)|)
    ensures !aborted ==> |moved| == migrated
    ensures !aborted ==> ReportsOk(failures, docs, targets, |docs|, moved)
    ensures store.faultless ==> old(store.faultless)
    ensures store.leaks >= old(store.leaks) && (store.leaks == old(store.leaks) ==> !aborted)
    ensures store.Clean() ==> LeftOver(store.Now(), content, docs, targets, |docs|, moved)
    ensures store.undisturbed ==>
              old(store.undisturbed) && store.rows.Keys == old(store.rows).Keys && store.issued == old(store.issued)
    ensures NoneMatch(content, docs, targets0) ==>
              moved == {} && store.writes == old(store.writes) && store.Now() == old(store.Now())
  {
    hide Trace, Quiet, Step, Licensed, LegacyKey, UploaderScoped, LayoutOk;
    hide CompanyScopedPath, IsCompanyScoped, IsDocumentPath, Copied, RowsHandled, ReportsOk, LeftOver, FiledOnce,
         UnmovedStay;
    ghost var s0 := store.Now();
    ghost var from := |store.trace|;
    targets, migrated, failures, aborted, moved := targets0, 0, failures0, false, {};
    ReportsOkStart(failures0, docs, companies, targets0);
    NothingHandled(store.scope, s0, source, content, docs, targets0, store.trace);
    GroupIsUnmoved(store.scope, s0, source, docs);
    for i := 0 to |docs|
      invariant store.Valid() && old(store.trace) <= store.trace
      invariant RowsHandled(store.scope, s0, store.Now(), content, docs, i, targets0, targets, moved, store.trace, from)
      invariant |moved| == migrated && (store.faultless ==> UnmovedStay(store.Now(), docs, moved))
      invariant !aborted && ReportsOk(failures, docs, targets, i, moved) && FiledOnce(failures, docs, source)
      invariant store.faultless ==> old(store.faultless)
      invariant store.leaks >= old(store.leaks)
      invariant store.Clean() ==> LeftOver(store.Now(), content, docs, targets, i, moved)
      invariant store.undisturbed ==>
                  old(store.undisturbed) && store.rows.Keys == s0.rows.Keys && store.issued == s0.issued
      invariant NoneMatch(content, docs, targets0) ==>
                  moved == {} && store.writes == old(store.writes) && store.Now() == s0
    {
      var doc := docs[i];
      assert doc in docs;
      if doc.row.company.value in targets {
        TargetKnown(store.scope, sc, s0, store.Now(), source, content, docs, i, companies, targets0, targets, moved,
                    store.trace, from, doc);
        var moves;
        aborted, moves, targets, failures, moved :=
          RepointNext(store, s0, from, source, content, docs, i, targets0, targets, failures, moved);
        if aborted {
          HandledSoFar(store.scope, s0, store.Now(), content, docs, i + 1, targets0, targets, moved, store.trace, from);
          return;
        }
        if moves { migrated := migrated + 1; }
      } else {
        RowSkipped(store.scope, s0, store.Now(), content, docs, i, targets0, targets, moved, store.trace, from,
            failures);
      }
    }
  }

  // ----- roll back copies no row ended up at -----

  /** One fresh copy: ask the table, and remove the copy if no row is at it. */
  method RollBackCopy(store: Store, source: string, doc: Doc, target: string)
    requires store.Valid()
    requires AtSource(store.scope, source, doc) && Tracked(store.Now(), doc) && target == Target(doc.row)
    requires source in store.objects && target in store.objects && store.objects[target] == store.objects[source]
    modifies store
    ensures store.Valid() && old(store.trace) <= store.trace
    ensures RowsByOthers(store.scope.companies, old(store.Now()), store.Now(), {})
    ensures store.objects == old(store.objects) || store.objects == old(store.objects) - {target}
    ensures store.faultless ==> old(store.faultless)
    ensures store.leaks >= old(store.leaks)
    ensures store.leaks == old(store.leaks) ==>
              target !in store.objects || PointedSince(store.trace, |old(store.trace)|, target)
    ensures store.undisturbed ==>
              old(store.undisturbed) && store.rows == old(store.rows) && store.issued == old(store.issued)
  {
    hide Trace, Quiet, Step, LegacyKey, UploaderScoped, LayoutOk;
    ghost var s0 := store.Now();
    var reply := store.StillReferenced(target);
    ghost var s1 := store.Now();
    if !reply.Ok? { return; }
    if reply.value {
      ghost var id :| RowAt(s1, id, target);
      assert RowAt(store.trace[|store.trace| - 1].state, id, target);
      assert SeenAt(store.trace, |old(store.trace)|, id, target);
      return;
    }
    assert !RowAt(s1, doc.id, target);
    assert Known(s1, doc);
    assert Unreferenced(s1, target, s1.issued) by {
      assert forall id :: id in s1.rows ==> !RowAt(s1, id, target);
    }
    RehomedFacts(doc.row);
    var _, mid := store.RemoveCopy(doc, s1.issued);
    RowsByOthersTransitive(store.scope.companies, s0, s1, mid, {});
  }

  /** Where the fresh copies stand while they are rolled back, company by company. */
  ghost predicate RollingBack(s0: State, s: State, source: string, docs: seq<Doc>, targets: map<string, TargetState>,
                              companies: seq<string>, i: nat) {
    && s.objects.Keys <= s0.objects.Keys
    && (forall key :: key in s.objects ==> s.objects[key] == s0.objects[key])
    && (forall key :: key in s0.objects && key !in s.objects ==>
          exists j :: 0 <= j < i && j < |companies| && companies[j] in targets
                      && targets[companies[j]].uploadedThisRun && targets[companies[j]].repointed == 0
                      && targets[companies[j]].path == key)
  }

  /** A fresh copy is gone, or some row was at it. */
  ghost predicate Resolved(s: State, targets: map<string, TargetState>, companies: seq<string>, i: nat,
                           trace: seq<Entry>, from: nat) {
    forall j :: 0 <= j < i && j < |companies| && companies[j] in targets && targets[companies[j]].uploadedThisRun ==>
      targets[companies[j]].path !in s.objects || PointedSince(trace, from, targets[companies[j]].path)
  }

  lemma NothingToRollBack(s0: State, s: State, source: string, docs: seq<Doc>, targets: map<string, TargetState>,
                          companies: seq<string>)
    requires RollingBack(s0, s, source, docs, targets, companies, |companies|)
    requires forall c :: c in targets ==> !targets[c].uploadedThisRun
    ensures s.objects == s0.objects
  {
    assert s.objects.Keys == s0.objects.Keys;
  }

  lemma SourceStays(s0: State, s2: State, s3: State, source: string, content: Bytes, docs: seq<Doc>,
                    targets: map<string, TargetState>, companies: seq<string>)
    requires TargetsOk(s0, s2, source, content, docs, targets) && source in s0.objects && source in s2.objects
    requires RollingBack(s2, s3, source, docs, targets, companies, |companies|)
    ensures source in s3.objects
  {
  }

  lemma PointedLater(trace: seq<Entry>, longer: seq<Entry>, from: nat, from': nat, key: string)
    requires trace <= longer && from <= from'
    ensures PointedSince(trace, from', key) ==> PointedSince(longer, from, key)
  {
    if PointedSince(trace, from', key) {
      var id :| SeenAt(trace, from', id, key);
      SeenGrows(trace, longer, from', id, key);
      assert SeenAt(longer, from, id, key);
    }
  }

  /** A fresh copy no row was moved to is still there with the source's bytes, so it can be removed. */
  lemma RollBackIsReady(scope: Scope, sc: State, s0: State, s: State, source: string, content: Bytes, docs: seq<Doc>,
                        companies: seq<string>, i: nat, targets: map<string, TargetState>, doc: Doc)
    requires forall d :: d in docs ==> AtSource(scope, source, d) && Tracked(s0, d)
    requires source in s0.objects && s0.objects[source] == content
    requires Distinct(companies) && i < |companies| && TargetsOk(sc, s0, source, content, docs, targets)
    requires companies[i] in targets && targets[companies[i]].uploadedThisRun
    requires doc in docs && doc.row.company == Some(companies[i])
    requires RollingBack(s0, s, source, docs, targets, companies, i) && RowsByOthers(scope.companies, s0, s, {})
    ensures AtSource(scope, source, doc) && Tracked(s, doc) && targets[companies[i]].path == Target(doc.row)
    ensures source in s.objects && Target(doc.row) in s.objects && s.objects[Target(doc.row)] == s.objects[source]
  {
    hide LegacyKey, UploaderScoped, CompanyScopedPath, IsCompanyScoped;
    var target := targets[companies[i]].path;
    assert TargetOk(sc, s0, source, content, companies[i], targets[companies[i]]);
    RehomedFacts(doc.row);
    forall j | 0 <= j < i && companies[j] in targets
      ensures targets[companies[j]].path != target && targets[companies[j]].path != source
    {
      assert TargetOk(sc, s0, source, content, companies[j], targets[companies[j]]);
      TargetsDistinct(source, companies[j], companies[i]);
      var d :| d in docs && d.row.company == Some(companies[j]);
      RehomedFacts(d.row);
    }
  }

  lemma RolledBackOne(s0: State, s1: State, s2: State, source: string, docs: seq<Doc>,
                      targets: map<string, TargetState>,
                      companies: seq<string>, i: nat)
    requires i < |companies| && RollingBack(s0, s1, source, docs, targets, companies, i)
    requires s2.objects == s1.objects
             || (companies[i] in targets && targets[companies[i]].uploadedThisRun
                 && targets[companies[i]].repointed == 0
                 && s2.objects == s1.objects - {targets[companies[i]].path})
    ensures RollingBack(s0, s2, source, docs, targets, companies, i + 1)
  {
    forall key | key in s0.objects && key !in s2.objects
      ensures exists j :: 0 <= j < i + 1 && j < |companies| && companies[j] in targets
                          && targets[companies[j]].uploadedThisRun && targets[companies[j]].repointed == 0
                          && targets[companies[j]].path == key
    {
      if key in s1.objects {
        assert companies[i] in targets && targets[companies[i]].path == key;
      }
    }
  }

  lemma ResolvedOne(s1: State, s2: State, targets: map<string, TargetState>, companies: seq<string>, i: nat,
                    trace1: seq<Entry>, trace2: seq<Entry>, from: nat)
    requires Resolved(s1, targets, companies, i, trace1, from) && trace1 <= trace2 && from <= |trace1|
    requires s2.objects.Keys <= s1.objects.Keys
    requires i < |companies| && companies[i] in targets && targets[companies[i]].uploadedThisRun ==>
               targets[companies[i]].path !in s2.objects || PointedSince(trace2, from, targets[companies[i]].path)
    ensures Resolved(s2, targets, companies, i + 1, trace2, from)
  {
    hide PointedSince;
    forall j | 0 <= j < i && j < |companies| && companies[j] in targets && targets[companies[j]].uploadedThisRun
      ensures targets[companies[j]].path !in s2.objects || PointedSince(trace2, from, targets[companies[j]].path)
    {
      PointedLater(trace1, trace2, from, from, targets[companies[j]].path);
    }
  }

  method RollBackCopies(store: Store, source: string, content: Bytes, docs: seq<Doc>, companies: seq<string>,
                        targets: map<string, TargetState>, ghost sc: State, ghost from: nat)
    requires store.Valid() && from <= |store.trace|
    requires forall d :: d in docs ==> AtSource(store.scope, source, d) && Tracked(store.Now(), d)
    requires source in store.objects && store.objects[source] == content
    requires Distinct(companies)
    requires TargetsOk(sc, store.Now(), source, content, docs, targets)
    requires forall c :: c in targets && targets[c].repointed > 0 ==> PointedSince(store.trace, from, targets[c].path)
    modifies store
    ensures store.Valid() && old(store.trace) <= store.trace
    ensures RowsByOthers(store.scope.companies, old(store.Now()), store.Now(), {})
    ensures RollingBack(old(store.Now()), store.Now(), source, docs, targets, companies, |companies|)
    ensures store.faultless ==> old(store.faultless)
    ensures store.leaks >= old(store.leaks)
    ensures store.leaks == old(store.leaks) ==>
              Resolved(store.Now(), targets, companies, |companies|, store.trace, from)
    ensures store.undisturbed ==>
              old(store.undisturbed) && store.rows == old(store.rows) && store.issued == old(store.issued)
    ensures (forall c :: c in targets ==> !targets[c].uploadedThisRun) ==> store.writes == old(store.writes)
  {
    hide Trace, Quiet, Step, Licensed, LegacyKey, UploaderScoped, LayoutOk;
    hide RollingBack, Resolved, PointedSince, RowsByOthers, TargetsOk, AtSource, Tracked;
    ghost var s0 := store.Now();
    RollBackStarts(s0, source, docs, targets, companies, store.trace, from, store.scope.companies);
    for i := 0 to |companies|
      invariant store.Valid() && old(store.trace) <= store.trace
      invariant RowsByOthers(store.scope.companies, s0, store.Now(), {})
      invariant RollingBack(s0, store.Now(), source, docs, targets, companies, i)
      invariant store.faultless ==> old(store.faultless)
      invariant store.leaks >= old(store.leaks)
      invariant store.leaks == old(store.leaks) ==> Resolved(store.Now(), targets, companies, i, store.trace, from)
      invariant store.undisturbed ==> old(store.undisturbed) && store.rows == s0.rows && store.issued == s0.issued
      invariant (forall c :: c in targets ==> !targets[c].uploadedThisRun) ==> store.writes == old(store.writes)
    {
      var company := companies[i];
      ghost var s1, trace1 := store.Now(), store.trace;
      if company in targets && targets[company].uploadedThisRun && targets[company].repointed == 0 {
        CompanyIsThere(sc, s0, source, content, docs, targets, company);
        var doc :| doc in docs && doc.row.company == Some(company);
        RollBackIsReady(store.scope, sc, s0, s1, source, content, docs, companies, i, targets, doc);
        RollBackCopy(store, source, doc, targets[company].path);
        RowsByOthersTransitive(store.scope.companies, s0, s1, store.Now(), {});
        PointedLater(store.trace, store.trace, from, |trace1|, targets[company].path);
      } else if company in targets {
        PointedLater(old(store.trace), store.trace, from, from, targets[company].path);
      }
      RolledBackOne(s0, s1, store.Now(), source, docs, targets, companies, i);
      if store.leaks == old(store.leaks) {
        ResolvedOne(s1, store.Now(), targets, companies, i, trace1, store.trace, from);
      }
    }
  }

  lemma RollBackStarts(s: State, source: string, docs: seq<Doc>, targets: map<string, TargetState>,
                       companies: seq<string>,
                       trace: seq<Entry>, from: nat, scopeCompanies: set<string>)
    requires s.rows.Keys <= s.issued
    ensures RollingBack(s, s, source, docs, targets, companies, 0)
    ensures Resolved(s, targets, companies, 0, trace, from) && RowsByOthers(scopeCompanies, s, s, {})
  {
  }

  lemma CompanyIsThere(sc: State, s: State, source: string, content: Bytes, docs: seq<Doc>,
                       targets: map<string, TargetState>,
                       company: string)
    requires TargetsOk(sc, s, source, content, docs, targets) && company in targets
    ensures exists d :: d in docs && d.row.company == Some(company)
  {
  }

  // ----- 6: the source -----

  /** Remove the legacy object only when the live table confirms that no row is at it. */
  method RemoveLegacySourceIfUnreferenced(store: Store, key: string, doc: Doc) returns (removed: bool, aborted: bool)
    requires store.Valid() && store.scope.deleteSource
    requires doc.id in store.issued && InWindow(store.scope.window, doc.row) && LegacyKey(doc.row) == Some(key)
    requires Promised(store.scope, store.start, doc.row)
    requires doc.id in store.rows ==>
               InWindow(store.scope.window, store.rows[doc.id]) && LegacyKey(store.rows[doc.id]) == Some(key)
    modifies store
    ensures store.Valid() && old(store.trace) <= store.trace
    ensures RowsByOthers(store.scope.companies, old(store.Now()), store.Now(), {})
    ensures store.objects == old(store.objects) || store.objects == old(store.objects) - {key}
    ensures removed ==> key !in store.objects
    ensures store.faultless && store.objects != old(store.objects) ==> removed
    ensures store.faultless && key in store.objects ==> PointedSince(store.trace, |old(store.trace)|, key)
    ensures store.faultless ==> old(store.faultless)
    ensures store.leaks >= old(store.leaks) && (store.faultless ==> !aborted)
    ensures store.Clean() ==> key !in store.objects || Referenced(store.Now(), key)
    ensures store.undisturbed ==>
              old(store.undisturbed) && store.rows == old(store.rows) && store.issued == old(store.issued)
    ensures store.Clean() && Referenced(old(store.Now()), key) ==>
              store.writes == old(store.writes) && store.Now() == old(store.Now())
  {
    hide Trace, Quiet, Step, UploaderScoped, LayoutOk;
    ghost var s0 := store.Now();
    removed, aborted := false, false;
    var reply := store.StillReferenced(key);
    ghost var s1 := store.Now();
    if !reply.Ok? { return; }
    if reply.value {
      ghost var id :| RowAt(s1, id, key);
      assert RowAt(store.trace[|store.trace| - 1].state, id, key);
      assert SeenAt(store.trace, |old(store.trace)|, id, key);
      return;
    }
    assert Unreferenced(s1, key, s1.issued) by {
      assert forall id :: id in s1.rows ==> !RowAt(s1, id, key);
    }
    PromisedKey(store.scope, store.start, doc.row);
    var gone, mid := store.RemoveSource(key, doc.id, s1.issued);
    RowsByOthersTransitive(store.scope.companies, s0, s1, mid, {});
    removed, aborted := gone.Ok?, gone.Threw?;
  }

  // ----- the whole group -----

  /** What the migration of a group may have touched. */
  ghost predicate GroupFrame(companies: set<string>, s: State, s': State, source: string, docs: seq<Doc>) {
    && RowsByOthers(companies, s, s', Ids(docs))
    && (forall d :: d in docs && Candidate(d.row) ==> Tracked(s', d))
    && (forall key :: key in s.objects && key in s'.objects ==> s'.objects[key] == s.objects[key])
    && (forall key :: key in s.objects && key !in s'.objects ==> key == source)
    && (forall key :: key in s'.objects && key !in s.objects ==> key in TargetKeys(docs))
  }

  /** The copies the migrated rows were moved to have the digest stored with them, or without one the source's bytes. */
  ghost predicate MovedMatch(s: State, docs: seq<Doc>, moved: set<nat>, content: Bytes) {
    forall d :: d in docs && Candidate(d.row) && d.id in moved ==>
      && Target(d.row) in s.objects
      && (d.row.hash.Some? ==> Sha256(s.objects[Target(d.row)]) == d.row.hash.value)
      && (d.row.hash.None? ==> s.objects[Target(d.row)] == content)
  }

  lemma MovedCopiesStay(scope: Scope, s0: State, s1: State, s2: State, s3: State, s4: State, source: string,
                        content: Bytes, docs: seq<Doc>, companies: seq<string>, targets0: map<string, TargetState>,
                        targets: map<string, TargetState>, moved: set<nat>, trace: seq<Entry>, from: nat)
    requires GroupOk(scope, s0, source, docs)
    requires Copied(s0, s1, source, content, docs, companies, targets0)
    requires RowsHandled(scope, s1, s2, content, docs, |docs|, targets0, targets, moved, trace, from)
    requires RollingBack(s2, s3, source, docs, targets, companies, |companies|)
    requires s4.objects == s3.objects || s4.objects == s3.objects - {source}
    ensures MovedMatch(s4, docs, moved, content)
  {
    forall d | d in docs && d.id in moved
      ensures Target(d.row) in s4.objects && Fits(d.row, content, Sha256(s4.objects[Target(d.row)]))
    {
      var c := d.row.company.value;
      assert TargetOk(s0, s1, source, content, c, targets0[c]);
      RehomedFacts(d.row);
      forall j | 0 <= j < |companies| && companies[j] in targets && companies[j] != c
        ensures targets[companies[j]].path != Target(d.row)
      {
        assert TargetOk(s0, s1, source, content, companies[j], targets0[companies[j]]);
        TargetsDistinct(source, companies[j], c);
      }
    }
  }

  lemma GroupFrameHolds(scope: Scope, s0: State, s1: State, s2: State, s3: State, s4: State, source: string,
                        content: Bytes,
                        docs: seq<Doc>, companies: seq<string>, targets0: map<string, TargetState>,
                        targets: map<string, TargetState>, moved: set<nat>, trace: seq<Entry>, from: nat)
    requires GroupOk(scope, s0, source, docs)
    requires RowsByOthers(scope.companies, s0, s1, {}) && Copied(s0, s1, source, content, docs, companies, targets0)
    requires RowsHandled(scope, s1, s2, content, docs, |docs|, targets0, targets, moved, trace, from)
    requires RowsByOthers(scope.companies, s2, s3, {})
             && RollingBack(s2, s3, source, docs, targets, companies, |companies|)
    requires RowsByOthers(scope.companies, s3, s4, {})
    requires s4.objects == s3.objects || s4.objects == s3.objects - {source}
    ensures GroupFrame(scope.companies, s0, s4, source, docs)
    ensures MovedRehomed(s4, docs, moved)
  {
    var ids := Ids(docs);
    RowsByOthersTransitive(scope.companies, s0, s1, s2, ids);
    RowsByOthersTransitive(scope.companies, s0, s2, s3, ids);
    RowsByOthersTransitive(scope.companies, s0, s3, s4, ids);
    forall j | 0 <= j < |companies| && companies[j] in targets && targets[companies[j]].uploadedThisRun
      ensures targets[companies[j]].path !in s0.objects
    {
      assert targets0[companies[j]].uploadedThisRun;
      assert TargetOk(s0, s1, source, content, companies[j], targets0[companies[j]]);
    }
    forall d | d in docs
      ensures Tracked(s4, d)
      ensures d.id in moved && d.id in s4.rows ==> s4.rows[d.id] == Rehomed(d.row)
    {
      var j :| 0 <= j < |docs| && docs[j] == d;
      assert Tracked(s2, docs[j]);
    }
  }

  /** In an undisturbed, fault-free run, a row of the group that is still at the source cannot be moved. */
  lemma GroupSettles(scope: Scope, start: State, s0: State, s1: State, s2: State, s3: State, source: string,
                     content: Bytes,
                     docs: seq<Doc>, companies: seq<string>, targets0: map<string, TargetState>,
                     targets: map<string, TargetState>, moved: set<nat>, trace: seq<Entry>, from: nat, d: Doc)
    requires GroupOk(scope, s0, source, docs) && OnCourse(scope, start, s0)
    requires source in s0.objects && s0.objects[source] == content
    requires Copied(s0, s1, source, content, docs, companies, targets0)
    requires d in docs && d.row.company.value in targets0
    requires RowsHandled(scope, s1, s2, content, docs, |docs|, targets0, targets, moved, trace, from)
    requires LeftOver(s2, content, docs, targets, |docs|, moved)
    requires RollingBack(s2, s3, source, docs, targets, companies, |companies|)
    requires s3.rows == s2.rows && s2.rows.Keys == s0.rows.Keys
    ensures d.id in s3.rows && !Movable(scope.window, s3, d.id)
    ensures d.id !in moved ==> s3.rows[d.id] == d.row
  {
    var j :| 0 <= j < |docs| && docs[j] == d;
    assert Known(s0, d);
    RehomedFacts(d.row);
    if d.id !in moved {
      var company := d.row.company.value;
      var t := targets[company];
      assert s3.rows[d.id] == d.row && !Fits(d.row, content, t.copyHash);
      assert RowSound(s0, s0.rows[d.id]);
      assert TargetOk(s0, s1, source, content, company, targets0[company]);
      assert t.path == Target(d.row) && s2.objects[t.path] != content && !t.uploadedThisRun;
      forall k | 0 <= k < |companies| && companies[k] in targets && targets[companies[k]].uploadedThisRun
        ensures targets[companies[k]].path != t.path
      {
        assert TargetOk(s0, s1, source, content, companies[k], targets0[companies[k]]);
        TargetsDistinct(source, companies[k], company);
      }
    }
  }

  /** Nothing can be moved: every target is there already, with other bytes. */
  lemma GroupIdles(scope: Scope, start: State, s0: State, s1: State, source: string, content: Bytes, docs: seq<Doc>,
                   companies: seq<string>, targets0: map<string, TargetState>)
    requires GroupOk(scope, s0, source, docs) && OnCourse(scope, start, s0)
    requires source in s0.objects && s0.objects[source] == content
    requires forall d :: d in docs ==> !Movable(scope.window, s0, d.id)
    ensures forall key :: key in TargetKeys(docs) ==> key in s0.objects
    ensures Copied(s0, s1, source, content, docs, companies, targets0) ==>
              && s1.objects == s0.objects
              && NoneMatch(content, docs, targets0)
              && forall c :: c in targets0 ==> !targets0[c].uploadedThisRun
  {
    forall d | d in docs
      ensures Target(d.row) in s0.objects && s0.objects[Target(d.row)] != content
      ensures Fits(d.row, content, Sha256(content))
    {
      assert Known(s0, d);
      assert !Movable(scope.window, s0, d.id);
      RehomedFacts(d.row);
      assert RowSound(s0, s0.rows[d.id]);
    }
    if Copied(s0, s1, source, content, docs, companies, targets0) {
      assert s1.objects == s0.objects;
      forall d | d in docs && d.row.company.value in targets0
        ensures !Fits(d.row, content, targets0[d.row.company.value].copyHash)
      {
        assert TargetOk(s0, s1, source, content, d.row.company.value, targets0[d.row.company.value]);
      }
      forall c | c in targets0
        ensures !targets0[c].uploadedThisRun
      {
        assert TargetOk(s0, s1, source, content, c, targets0[c]);
        var d :| d in docs && d.row.company == Some(c);
        assert Target(d.row) == targets0[c].path;
      }
    }
  }

  /** Every object the group created is gone again or was at some live row's pointer. */
  lemma NoResurrection(s0: State, s1: State, s2: State, s3: State, docs: seq<Doc>, companies: seq<string>,
                       targets0: map<string, TargetState>, targets: map<string, TargetState>, trace: seq<Entry>,
                       from: nat, from': nat,
                       source: string, key: string)
    requires CopiesTracked(s0, s1, targets0) && s2.objects == s1.objects
    requires forall c :: c in targets0 ==> c in companies
    requires targets.Keys == targets0.Keys
    requires forall c :: c in targets ==> targets[c] == targets0[c].(repointed := targets[c].repointed)
    requires RollingBack(s2, s3, source, docs, targets, companies, |companies|)
    requires Resolved(s3, targets, companies, |companies|, trace, from')
    requires key in s3.objects && key !in s0.objects && from <= from'
    ensures PointedSince(trace, from, key)
  {
    var c :| c in targets0 && targets0[c].uploadedThisRun && targets0[c].path == key;
    var j :| 0 <= j < |companies| && companies[j] == c;
    assert PointedSince(trace, from', targets[companies[j]].path);
    PointedLater(trace, trace, from, from', key);
  }

  /** Every row of the group is either migrated or reported, and never both. */
  ghost predicate Accounted(docs: seq<Doc>, failures: seq<Failure>, moved: set<nat>) {
    forall d :: d in docs ==> (Reported(failures, 0, d.id) <==> d.id !in moved)
  }

  /** Nothing is left to do for the group. */
  ghost predicate GroupSettled(scope: Scope, s: State, source: string, docs: seq<Doc>) {
    && (forall d :: d in docs ==> !Movable(scope.window, s, d.id))
    && (scope.deleteSource && source in s.objects ==> Referenced(s, source))
  }

  lemma AccountedFrom(scope: Scope, s0: State, s: State, content: Bytes, source: string, docs: seq<Doc>,
                      targets0: map<string, TargetState>, targets: map<string, TargetState>,
                      moved: set<nat>, failures: seq<Failure>, trace: seq<Entry>, from: nat)
    requires docs != [] && DistinctIds(docs)
    requires forall d :: d in docs ==> AtSource(scope, source, d)
    requires RowsHandled(scope, s0, s, content, docs, |docs|, targets0, targets, moved, trace, from)
    requires ReportsOk(failures, docs, targets, |docs|, moved)
    ensures Accounted(docs, failures, moved) && moved <= Ids(docs)
    ensures |moved| <= |docs| && (|moved| == |docs| <==> forall d :: d in docs ==> d.id in moved)
  {
    forall d | d in docs
      ensures Reported(failures, 0, d.id) <==> d.id !in moved
    {
      var j :| 0 <= j < |docs| && docs[j] == d;
    }
    IdsCardinality(docs);
    SubsetSize(moved, Ids(docs));
    if forall d :: d in docs ==> d.id in moved {
      assert moved == Ids(docs);
    }
  }

  lemma IdsCardinality(docs: seq<Doc>)
    requires DistinctIds(docs)
    ensures |Ids(docs)| == |docs|
  {
    if docs != [] {
      var front := docs[..|docs| - 1];
      var last := docs[|docs| - 1];
      IdsCardinality(front);
      assert docs == front + [last];
      assert Ids(docs) == Ids(front) + {last.id};
    }
  }

  lemma SeenFrom(docs: seq<Doc>, moved: set<nat>, trace: seq<Entry>, longer: seq<Entry>, from: nat, from': nat)
    requires MovedSeen(docs, moved, trace, from') && trace <= longer && from <= from'
    ensures MovedSeen(docs, moved, longer, from)
  {
    forall d | d in docs && Candidate(d.row) && d.id in moved
      ensures SeenAt(longer, from, d.id, Target(d.row))
    {
      SeenGrows(trace, longer, from', d.id, Target(d.row));
      var k :| from' <= k < |longer| && RowAt(longer[k].state, d.id, Target(d.row));
    }
  }

  /** After the repointing, the fresh copies can be rolled back. */
  lemma ReadyToRollBack(scope: Scope, s0: State, s1: State, s2: State, source: string, content: Bytes, docs: seq<Doc>,
                        companies: seq<string>, targets0: map<string, TargetState>, targets: map<string, TargetState>,
                        moved: set<nat>, trace: seq<Entry>, from: nat)
    requires GroupOk(scope, s0, source, docs) && source in s0.objects && s0.objects[source] == content
    requires Copied(s0, s1, source, content, docs, companies, targets0)
    requires RowsHandled(scope, s1, s2, content, docs, |docs|, targets0, targets, moved, trace, from)
    ensures forall d :: d in docs ==> AtSource(scope, source, d) && Tracked(s2, d)
    ensures source in s2.objects && s2.objects[source] == content
    ensures TargetsOk(s0, s2, source, content, docs, targets)
    ensures forall c :: c in targets && targets[c].repointed > 0 ==> PointedSince(trace, from, targets[c].path)
  {
    forall d | d in docs ensures Tracked(s2, d) {
      var j :| 0 <= j < |docs| && docs[j] == d;
      assert Tracked(s2, docs[j]);
    }
    forall c | c in targets
      ensures HasCompany(docs, c) && TargetOk(s0, s2, source, content, c, targets[c])
    {
      assert TargetOk(s0, s1, source, content, c, targets0[c]);
    }
  }

  /** A row of the group still stands for the source, wherever its pointer is now. */
  lemma StillBacks(scope: Scope, start: State, s: State, s': State, source: string, docs: seq<Doc>, d: Doc)
    requires d in docs && AllPromised(scope, start, docs)
    requires AtSource(scope, source, d) && Tracked(s, d) && RowsByOthers(scope.companies, s, s', {})
    ensures InWindow(scope.window, d.row) && LegacyKey(d.row) == Some(source) && d.id in s'.issued
            && Promised(scope, start, d.row)
    ensures d.id in s'.rows ==> InWindow(scope.window, s'.rows[d.id]) && LegacyKey(s'.rows[d.id]) == Some(source)
  {
    RehomedFacts(d.row);
  }

  /** With every row of the group at its target, it is the other rows that decide. */
  lemma GroupIsCovered(scope: Scope, start: State, trace: seq<Entry>, k: nat, source: string, docs: seq<Doc>,
                       moved: set<nat>)
    requires Initial(start) && Layout(scope.companies, start) && Trace(scope, start, trace) && k <= |trace|
    requires GroupOk(scope, Reached(start, trace[..k]), source, docs) && AllPromised(scope, start, docs)
    requires source in Reached(start, trace[..k]).objects
    requires Ids(docs) <= moved && MovedRehomed(Reached(start, trace), docs, moved)
    ensures var s, content := Reached(start, trace), Reached(start, trace[..k]).objects[source];
            AllHaveCopies(s, source, content) <==> OthersHaveCopies(s, source, content, Ids(docs))
  {
    var s, s0 := Reached(start, trace), Reached(start, trace[..k]);
    hide Trace, LayoutOk, UploaderScoped, HasCopy, LegacyKey;
    assert docs[0] in docs;
    CandidateKeyIsPath(docs[0].row);
    PromisedKey(scope, start, docs[0].row);
    forall d | d in docs && d.id in s.rows ensures HasCopy(s, s.rows[d.id], s0.objects[source]) {
      assert d.id in Ids(docs);
      MovedIsCovered(scope, start, trace, k, d, source);
    }
    forall id | id in s.rows && id in Ids(docs) ensures HasCopy(s, s.rows[id], s0.objects[source]) {
      var d :| d in docs && d.id == id;
    }
  }

  lemma CandidateKeyIsPath(row: Row)
    requires Candidate(row)
    ensures LegacyKey(row) == row.path
  {
  }

  lemma FrameAfterCopy(scope: Scope, s0: State, s1: State, source: string, content: Bytes, docs: seq<Doc>,
                       companies: seq<string>, targets0: map<string, TargetState>)
    requires GroupOk(scope, s0, source, docs) && RowsByOthers(scope.companies, s0, s1, {})
    requires Copied(s0, s1, source, content, docs, companies, targets0)
    ensures GroupFrame(scope.companies, s0, s1, source, docs)
  {
  }

  lemma FrameAfterRepoint(scope: Scope, s0: State, s1: State, s2: State, source: string, content: Bytes,
                          docs: seq<Doc>, companies: seq<string>, targets0: map<string, TargetState>,
                          targets: map<string, TargetState>, moved: set<nat>, trace: seq<Entry>, from: nat)
    requires GroupOk(scope, s0, source, docs)
    requires RowsByOthers(scope.companies, s0, s1, {}) && Copied(s0, s1, source, content, docs, companies, targets0)
    requires RowsHandled(scope, s1, s2, content, docs, |docs|, targets0, targets, moved, trace, from)
    requires s2.rows.Keys <= s2.issued
    ensures GroupFrame(scope.companies, s0, s2, source, docs) && s2.objects == s1.objects
  {
    GroupFrameHolds(scope, s0, s1, s2, s2, s2, source, content, docs, companies, targets0, targets, moved, trace, from);
  }

  lemma FrameAfterEnv(scope: Scope, sI: State, s0: State, s4: State, source: string, docs: seq<Doc>)
    requires EnvStep(scope.companies, sI, s0) && GroupFrame(scope.companies, s0, s4, source, docs)
    ensures GroupFrame(scope.companies, sI, s4, source, docs)
  {
    RowsByOthersTransitive(scope.companies, sI, s0, s4, Ids(docs));
  }

  /** What a clean run knows after the rollback, and keeps when the source is removed. */
  lemma CleanGroup(scope: Scope, start: State, s0: State, s1: State, s2: State, s3: State, s4: State, source: string,
                   content: Bytes, docs: seq<Doc>, companies: seq<string>, targets0: map<string, TargetState>,
                   targets: map<string, TargetState>, moved: set<nat>, trace: seq<Entry>, from: nat, complete: bool)
    requires GroupOk(scope, s0, source, docs) && OnCourse(scope, start, s0)
    requires source in s0.objects && s0.objects[source] == content
    requires Copied(s0, s1, source, content, docs, companies, targets0)
    requires Covers(companies, docs)
    requires forall c :: c in companies ==> c in targets0
    requires RowsHandled(scope, s1, s2, content, docs, |docs|, targets0, targets, moved, trace, from)
    requires LeftOver(s2, content, docs, targets, |docs|, moved)
    requires RollingBack(s2, s3, source, docs, targets, companies, |companies|)
    requires s4.rows == s3.rows == s2.rows && s2.rows.Keys == s0.rows.Keys
    requires complete <==> forall d :: d in docs ==> d.id in moved
    requires s4.objects == s3.objects || (complete && s4.objects == s3.objects - {source})
    requires scope.deleteSource && complete ==> source !in s4.objects || Referenced(s4, source)
    ensures GroupSettled(scope, s4, source, docs)
  {
    forall d | d in docs
      ensures !Movable(scope.window, s4, d.id)
      ensures d.id !in moved ==> RowAt(s4, d.id, source)
    {
      GroupSettles(scope, start, s0, s1, s2, s3, source, content, docs, companies, targets0, targets, moved, trace,
          from, d);
      RehomedFacts(d.row);
      var j :| 0 <= j < |docs| && docs[j] == d;
    }
  }

  lemma CopiedGroup(scope: Scope, s0: State, s1: State, source: string, content: Bytes, docs: seq<Doc>,
                    companies: seq<string>, targets0: map<string, TargetState>)
    requires GroupOk(scope, s0, source, docs) && RowsByOthers(scope.companies, s0, s1, {})
    requires source in s0.objects && s0.objects[source] == content
    requires Copied(s0, s1, source, content, docs, companies, targets0)
    ensures GroupOk(scope, s1, source, docs)
    ensures source in s1.objects && s1.objects[source] == content
    ensures forall c :: c in targets0 ==> targets0[c].repointed == 0
  {
  }

  lemma HandledSeen(scope: Scope, s1: State, s2: State, content: Bytes, docs: seq<Doc>,
                    targets0: map<string, TargetState>, targets: map<string, TargetState>, moved: set<nat>,
                    trace: seq<Entry>, longer: seq<Entry>, from: nat, from': nat)
    requires RowsHandled(scope, s1, s2, content, docs, |docs|, targets0, targets, moved, trace, from')
    requires trace <= longer && from <= from'
    ensures MovedSeen(docs, moved, longer, from)
  {
    SeenFrom(docs, moved, trace, longer, from, from');
  }

  lemma CreatedSeen(scope: Scope, s0: State, s1: State, s2: State, s3: State, source: string, content: Bytes,
                    docs: seq<Doc>,
                    companies: seq<string>, targets0: map<string, TargetState>, targets: map<string, TargetState>,
                    moved: set<nat>, trace2: seq<Entry>, trace3: seq<Entry>, trace4: seq<Entry>, from: nat, from': nat)
    requires CopiesTracked(s0, s1, targets0) && Copied(s0, s1, source, content, docs, companies, targets0)
    requires RowsHandled(scope, s1, s2, content, docs, |docs|, targets0, targets, moved, trace2, from')
    requires RollingBack(s2, s3, source, docs, targets, companies, |companies|)
    requires Resolved(s3, targets, companies, |companies|, trace3, from')
    requires trace3 <= trace4 && from <= from'
    ensures forall key :: key in s3.objects && key !in s0.objects ==> PointedSince(trace4, from, key)
  {
    forall key | key in s3.objects && key !in s0.objects
      ensures PointedSince(trace4, from, key)
    {
      NoResurrection(s0, s1, s2, s3, docs, companies, targets0, targets, trace3, from, from', source, key);
      PointedLater(trace3, trace4, from, from, key);
    }
  }

  /** The source could not be read: nothing was touched. */
  lemma Untouched(scope: Scope, start: State, sI: State, s0: State, source: string, docs: seq<Doc>)
    requires GroupOk(scope, sI, source, docs) && EnvStep(scope.companies, sI, s0)
    ensures GroupFrame(scope.companies, sI, s0, source, docs)
    ensures source !in s0.objects && OnCourse(scope, start, sI) && s0 == sI ==> GroupSettled(scope, s0, source, docs)
  {
    if source !in s0.objects && s0 == sI {
      forall d | d in docs ensures !Movable(scope.window, s0, d.id) {
        assert Known(s0, d);
      }
    }
  }

  lemma AllReported(docs: seq<Doc>, failures: seq<Failure>)
    requires forall id :: Reported(failures, 0, id) <==> exists d :: d in docs && d.id == id
    ensures Accounted(docs, failures, {})
  {
  }

  lemma TargetsKeep(scope: Scope, s1: State, s2: State, content: Bytes, docs: seq<Doc>,
                    targets0: map<string, TargetState>, targets: map<string, TargetState>, moved: set<nat>,
                    trace: seq<Entry>, from: nat)
    requires RowsHandled(scope, s1, s2, content, docs, |docs|, targets0, targets, moved, trace, from)
    ensures targets.Keys == targets0.Keys
    ensures forall c :: c in targets ==> targets[c].uploadedThisRun == targets0[c].uploadedThisRun
  {
  }

  /** Roll back and release the source, once every row has been handled. */
  method FinishGroup(store: Store, ghost s0: State, ghost s1: State, source: string, content: Bytes, docs: seq<Doc>,
                     companies: seq<string>, ghost targets0: map<string, TargetState>,
                     targets: map<string, TargetState>,
                     migrated: nat, ghost moved: set<nat>, ghost from: nat, ghost from': nat, deleteSource: bool)
      returns (removed: bool, aborted: bool)
    requires store.Valid() && deleteSource == store.scope.deleteSource && AllPromised(store.scope, store.start, docs)
    requires GroupOk(store.scope, s0, source, docs) && source in s0.objects && s0.objects[source] == content
    requires Distinct(companies) && Covers(companies, docs)
    requires RowsByOthers(store.scope.companies, s0, s1, {})
    requires Copied(s0, s1, source, content, docs, companies, targets0)
    requires from <= from' <= |store.trace|
    requires RowsHandled(store.scope, s1, store.Now(), content, docs, |docs|, targets0, targets, moved, store.trace,
             from')
    requires migrated == |docs| <==> forall d :: d in docs ==> d.id in moved
    modifies store
    ensures store.Valid() && old(store.trace) <= store.trace
    ensures GroupFrame(store.scope.companies, s0, store.Now(), source, docs)
    ensures !aborted && removed ==> source !in store.objects
    ensures store.faultless ==> !aborted
    ensures UnmovedStay(old(store.Now()), docs, moved) ==> UnmovedStay(store.Now(), docs, moved)
    ensures store.faultless && source in old(store.objects) && source !in store.objects ==> removed && !aborted
    ensures MovedRehomed(store.Now(), docs, moved) && MovedMatch(store.Now(), docs, moved, content)
    ensures MovedSeen(docs, moved, store.trace, from)
    ensures store.faultless ==> old(store.faultless)
    ensures store.leaks >= old(store.leaks)
    ensures source in old(store.objects) && source !in store.objects ==> Ids(docs) <= moved
    ensures store.leaks == old(store.leaks) && CopiesTracked(s0, s1, targets0) ==>
              forall key :: key in store.objects && key !in s0.objects ==> PointedSince(store.trace, from, key)
    ensures store.undisturbed ==>
              old(store.undisturbed) && store.rows == old(store.rows) && store.issued == old(store.issued)
    ensures store.Clean() && OnCourse(store.scope, store.start, s0) && old(store.rows).Keys == s0.rows.Keys
            && (forall c :: c in companies ==> c in targets0)
            && LeftOver(old(store.Now()), content, docs, targets, |docs|, moved) ==>
              GroupSettled(store.scope, store.Now(), source, docs)
    ensures (forall c :: c in targets ==> !targets[c].uploadedThisRun) && migrated != |docs| ==>
              store.writes == old(store.writes) && store.objects == old(store.objects)
  {
    hide Trace, Quiet, Step, Licensed, LegacyKey, UploaderScoped, LayoutOk, CompanyScopedPath, IsCompanyScoped;
    hide Copied, RowsHandled, RollingBack, LeftOver, Resolved, CopiesTracked, NoneMatch, OnCourse, GroupFrame;
    hide ReportsOk, Missing, TargetsOk, Accounted, MovedSeen, PointedSince, GroupSettled;
    hide RowsByOthers, MovedRehomed, MovedMatch, Covers, OnlyCopies, TargetOk, Repointing, Counted, Distinct, Known,
         Referenced, AllPromised;
    hide AtSource, Tracked, InWindow, Promised, DistinctIds, UnmovedStay;
    ghost var s2, trace2 := store.Now(), store.trace;
    ghost var scope, start := store.scope, store.start;
    ReadyToRollBack(scope, s0, s1, s2, source, content, docs, companies, targets0, targets, moved, trace2, from');
    RollBackCopies(store, source, content, docs, companies, targets, s0, from');
    ghost var s3, trace3 := store.Now(), store.trace;
    SourceStays(s0, s2, s3, source, content, docs, targets, companies);
    if forall c :: c in targets ==> !targets[c].uploadedThisRun {
      NothingToRollBack(s2, s3, source, docs, targets, companies);
    }
    removed, aborted := false, false;
    if deleteSource && migrated == |docs| {
      StillBacks(scope, start, s2, s3, source, docs, docs[0]);
      removed, aborted := RemoveLegacySourceIfUnreferenced(store, source, docs[0]);
    }
    ghost var s4, trace4 := store.Now(), store.trace;
    UnmovedThrough(scope.companies, s2, s3, s4, docs, moved);
    GroupFrameHolds(scope, s0, s1, s2, s3, s4, source, content, docs, companies, targets0, targets, moved, trace2,
        from');
    MovedCopiesStay(scope, s0, s1, s2, s3, s4, source, content, docs, companies, targets0, targets, moved, trace2,
        from');
    HandledSeen(scope, s1, s2, content, docs, targets0, targets, moved, trace2, trace4, from, from');
    if store.leaks == old(store.leaks) && CopiesTracked(s0, s1, targets0) {
      CreatedSeen(scope, s0, s1, s2, s3, source, content, docs, companies, targets0, targets, moved,
                  trace2, trace3, trace4, from, from');
    }
    if store.Clean() && OnCourse(scope, start, s0) && s2.rows.Keys == s0.rows.Keys
       && (forall c :: c in companies ==> c in targets0) && LeftOver(s2, content, docs, targets, |docs|, moved) {
      CleanGroup(scope, start, s0, s1, s2, s3, s4, source, content, docs, companies, targets0, targets, moved, trace2,
          from',
                 migrated == |docs|);
    }
  }

  /** Once the copies are made and read back: repoint, roll back and release the source. */
  method MigrateCopied(store: Store, ghost s0: State, source: string, content: Bytes, docs: seq<Doc>,
                       companies: seq<string>, targets0: map<string, TargetState>, failures0: seq<Failure>,
                       ghost from: nat, deleteSource: bool)
      returns (outcome: Outcome, failures: seq<Failure>, ghost moved: set<nat>)
    requires store.Valid() && deleteSource == store.scope.deleteSource && AllPromised(store.scope, store.start, docs)
    requires GroupOk(store.scope, s0, source, docs) && source in s0.objects && s0.objects[source] == content
    requires GroupOk(store.scope, store.Now(), source, docs) && source in store.objects
             && store.objects[source] == content
    requires Distinct(companies) && Covers(companies, docs)
    requires RowsByOthers(store.scope.companies, s0, store.Now(), {})
    requires Copied(s0, store.Now(), source, content, docs, companies, targets0)
    requires forall c :: c in targets0 ==> targets0[c].repointed == 0
    requires forall id :: Reported(failures0, 0, id) <==> Missing(docs, companies, targets0, id)
    requires FiledOnce(failures0, docs, source) && from <= |store.trace|
    modifies store
    ensures store.Valid() && old(store.trace) <= store.trace
    ensures GroupFrame(store.scope.companies, s0, store.Now(), source, docs)
    ensures outcome.Done? ==> outcome.migrated + outcome.failed == |docs| && |moved| == outcome.migrated
    ensures outcome.Done? ==> Accounted(docs, failures, moved) && moved <= Ids(docs)
    ensures FiledOnce(failures, docs, source)
    // without faults the group is done, and a row that does not count as moved has not been
    ensures store.faultless ==> outcome.Done? && UnmovedStay(store.Now(), docs, moved)
    ensures outcome.Done? ==> MovedSeen(docs, moved, store.trace, from)
    ensures outcome.Done? ==> MovedRehomed(store.Now(), docs, moved) && MovedMatch(store.Now(), docs, moved, content)
    ensures outcome.Done? && outcome.sourceRemoved ==> source !in store.objects
    ensures store.faultless && source !in store.objects ==> outcome.Done? && outcome.sourceRemoved
    ensures source !in store.objects ==> Ids(docs) <= moved && MovedRehomed(store.Now(), docs, moved)
    ensures store.leaks >= old(store.leaks)
    ensures store.leaks == old(store.leaks) && CopiesTracked(s0, old(store.Now()), targets0) ==>
              forall key :: key in store.objects && key !in s0.objects ==> PointedSince(store.trace, from, key)
    ensures store.faultless ==> old(store.faultless)
    ensures store.undisturbed ==>
              old(store.undisturbed) && store.rows.Keys == old(store.rows).Keys && store.issued == old(store.issued)
    ensures store.Clean() && OnCourse(store.scope, store.start, s0) && old(store.rows).Keys == s0.rows.Keys
            && (forall c :: c in companies ==> c in targets0) ==>
              GroupSettled(store.scope, store.Now(), source, docs)
    ensures store.Clean() && NoneMatch(content, docs, targets0)
            && (forall c :: c in targets0 ==> !targets0[c].uploadedThisRun) ==>
              store.writes == old(store.writes) && store.Now() == old(store.Now())
  {
    hide Trace, Quiet, Step, Licensed, LegacyKey, UploaderScoped, LayoutOk, CompanyScopedPath, IsCompanyScoped;
    hide Copied, RowsHandled, RollingBack, LeftOver, Resolved, CopiesTracked, NoneMatch, OnCourse, GroupFrame;
    hide ReportsOk, Missing, TargetsOk, Accounted, MovedSeen, PointedSince, GroupSettled;
    hide Covers, MovedRehomed, MovedMatch, OnlyCopies, TargetOk, Tracked, AtSource, Newborn, Repointing, Counted;
    hide RowAt, Ids, FiledOnce, UnmovedStay, RowsByOthers, DistinctIds, Distinct, AllPromised, Movable, EnvStep, Known;
    ghost var s1, trace1 := store.Now(), store.trace;
    ghost var scope := store.scope;
    var targets, migrated, aborted;
    targets, migrated, failures, aborted, moved :=
      RepointRows(store, source, content, docs, companies, targets0, failures0, s0);
    ghost var s2, trace2 := store.Now(), store.trace;
    FrameAfterRepoint(scope, s0, s1, s2, source, content, docs, companies, targets0, targets, moved, trace2, |trace1|);
    if aborted {
      outcome := Aborted;
      return;
    }
    AccountedFrom(scope, s1, s2, content, source, docs, targets0, targets, moved, failures, trace2, |trace1|);
    TargetsKeep(scope, s1, s2, content, docs, targets0, targets, moved, trace2, |trace1|);
    var removed;
    removed, aborted := FinishGroup(store, s0, s1, source, content, docs, companies, targets0, targets, migrated, moved,
                                    from, |trace1|, deleteSource);
    outcome := if aborted then Aborted else Done(migrated, |docs| - migrated, removed);
  }

  /** Copy, verify, repoint, roll back and release a source whose bytes have been read. */
  method MigrateContent(store: Store, source: string, content: Bytes, docs: seq<Doc>, deleteSource: bool)
      returns (outcome: Outcome, failures: seq<Failure>, ghost moved: set<nat>)
    requires store.Valid() && GroupOk(store.scope, store.Now(), source, docs)
             && AllPromised(store.scope, store.start, docs)
    requires source in store.objects && store.objects[source] == content
    requires deleteSource == store.scope.deleteSource
    modifies store
    ensures store.Valid() && old(store.trace) <= store.trace
    ensures GroupFrame(store.scope.companies, old(store.Now()), store.Now(), source, docs)
    ensures outcome.Done? ==> outcome.migrated + outcome.failed == |docs| && |moved| == outcome.migrated
    ensures outcome.Done? ==> Accounted(docs, failures, moved) && moved <= Ids(docs)
    ensures FiledOnce(failures, docs, source)
    // without faults the group is done, and a row that does not count as moved has not been
    ensures store.faultless ==> outcome.Done? && UnmovedStay(store.Now(), docs, moved)
    ensures outcome.Done? ==> MovedSeen(docs, moved, store.trace, |old(store.trace)|)
    ensures outcome.Done? ==> MovedRehomed(store.Now(), docs, moved) && MovedMatch(store.Now(), docs, moved, content)
    ensures outcome.Done? && outcome.sourceRemoved ==> source !in store.objects
    ensures store.faultless && source !in store.objects ==> outcome.Done? && outcome.sourceRemoved
    ensures source !in store.objects ==> Ids(docs) <= moved && MovedRehomed(store.Now(), docs, moved)
    // a copy no row was at is rolled back, whatever the pointer updates replied
    ensures store.leaks >= old(store.leaks)
    ensures store.leaks == old(store.leaks) ==>
              forall key :: key in store.objects && key !in old(store.objects) ==>
                PointedSince(store.trace, |old(store.trace)|, key)
    ensures store.faultless ==> old(store.faultless)
    ensures store.undisturbed ==>
              old(store.undisturbed) && store.rows.Keys == old(store.rows).Keys && store.issued == old(store.issued)
    ensures store.Clean() && OnCourse(store.scope, store.start, old(store.Now())) ==>
              GroupSettled(store.scope, store.Now(), source, docs)
    ensures store.Clean() && OnCourse(store.scope, store.start, old(store.Now()))
            && (forall d :: d in docs ==> !Movable(store.scope.window, old(store.Now()), d.id)) ==>
              store.writes == old(store.writes) && store.Now() == old(store.Now())
  {
    hide Trace, Quiet, Step, Licensed, LegacyKey, UploaderScoped, LayoutOk, CompanyScopedPath, IsCompanyScoped;
    hide Copied, RowsHandled, RollingBack, LeftOver, Resolved, CopiesTracked, NoneMatch, OnCourse, GroupFrame;
    hide ReportsOk, Missing, TargetsOk, Accounted, MovedSeen, PointedSince, GroupSettled;
    hide Covers, MovedRehomed, MovedMatch, OnlyCopies, TargetOk, Tracked, AtSource, Newborn, Repointing, Counted;
    hide RowAt, Ids, FiledOnce, UnmovedStay, RowsByOthers, GroupOk, DistinctIds, Distinct, AllPromised, Movable,
         EnvStep, Known;
    ghost var s0, trace0 := store.Now(), store.trace;
    ghost var scope, start := store.scope, store.start;
    ghost var idle := OnCourse(scope, start, s0) && forall d :: d in docs ==> !Movable(scope.window, s0, d.id);
    moved := {};
    var companies, targets0, failures0, aborted := CopyTargets(store, source, content, docs);
    ghost var s1, trace1 := store.Now(), store.trace;
    FrameAfterCopy(scope, s0, s1, source, content, docs, companies, targets0);
    CopiedGroup(scope, s0, s1, source, content, docs, companies, targets0);
    if aborted {
      outcome, failures := Aborted, failures0;
      return;
    }
    if idle {
      GroupIdles(scope, start, s0, s1, source, content, docs, companies, targets0);
    }
    outcome, failures, moved :=
      MigrateCopied(store, s0, source, content, docs, companies, targets0, failures0, |trace0|, deleteSource);
  }

  method MigrateGroup(store: Store, source: string, docs: seq<Doc>, deleteSource: bool)
      returns (outcome: Outcome, failures: seq<Failure>, ghost moved: set<nat>)
    requires store.Valid() && GroupOk(store.scope, store.Now(), source, docs)
             && AllPromised(store.scope, store.start, docs)
    requires deleteSource == store.scope.deleteSource
    modifies store
    ensures store.Valid() && old(store.trace) <= store.trace
    ensures GroupFrame(store.scope.companies, old(store.Now()), store.Now(), source, docs)
    ensures outcome.Done? ==> outcome.migrated + outcome.failed == |docs| && |moved| == outcome.migrated
    ensures outcome.Done? ==> Accounted(docs, failures, moved) && moved <= Ids(docs)
    ensures FiledOnce(failures, docs, source)
    // without faults the group is done, and a row that does not count as moved has not been
    ensures store.faultless ==> outcome.Done? && UnmovedStay(store.Now(), docs, moved)
    ensures outcome.Done? ==> MovedSeen(docs, moved, store.trace, |old(store.trace)|)
    ensures outcome.Done? ==> MovedRehomed(store.Now(), docs, moved)
    // a row is only counted over a copy with the digest stored with it, or without one with the source's bytes
    ensures outcome.Done? && source in old(store.objects) ==>
              MovedMatch(store.Now(), docs, moved, old(store.objects)[source])
    ensures outcome.Done? && source !in old(store.objects) ==> moved == {}
    // a source reported as removed went, and without faults the other way round
    ensures outcome.Done? && outcome.sourceRemoved ==> source in old(store.objects) && source !in store.objects
    ensures store.faultless && source in old(store.objects) && source !in store.objects ==>
              outcome.Done? && outcome.sourceRemoved
    // step 6 only follows a group whose rows were all repointed, and it is the rows outside that decide what is lost
    ensures source in old(store.objects) && source !in store.objects ==> Ids(docs) <= moved
    ensures source in old(store.objects) && source !in store.objects && Layout(store.scope.companies, store.start) ==>
              (AllHaveCopies(store.Now(), source, old(store.objects)[source]) <==>
                 OthersHaveCopies(store.Now(), source, old(store.objects)[source], Ids(docs)))
    // a copy no row was at is rolled back, whatever the pointer updates replied
    ensures store.leaks >= old(store.leaks)
    ensures store.leaks == old(store.leaks) ==>
              forall key :: key in store.objects && key !in old(store.objects) ==>
                PointedSince(store.trace, |old(store.trace)|, key)
    ensures store.faultless ==> old(store.faultless)
    ensures store.undisturbed ==>
              old(store.undisturbed) && store.rows.Keys == old(store.rows).Keys && store.issued == old(store.issued)
    ensures store.Clean() && OnCourse(store.scope, store.start, old(store.Now())) ==>
              GroupSettled(store.scope, store.Now(), source, docs)
    ensures store.Clean() && OnCourse(store.scope, store.start, old(store.Now()))
            && (forall d :: d in docs ==> !Movable(store.scope.window, old(store.Now()), d.id)) ==>
              store.writes == old(store.writes) && store.Now() == old(store.Now())
  {
    hide Trace, Quiet, Step, Licensed, LegacyKey, UploaderScoped, LayoutOk, CompanyScopedPath, IsCompanyScoped;
    hide GroupFrame, OnCourse, GroupSettled, Accounted, PointedSince, AllHaveCopies, OthersHaveCopies, Layout, Ids;
    hide FiledOnce, UnmovedStay;
    NothingFiled(docs, source);
    ghost var sI, traceI := store.Now(), store.trace;
    moved := {};
    var download := store.Download(source);
    ghost var s0, trace0 := store.Now(), store.trace;
    if download.Threw? {
      outcome, failures := Aborted, [];
      Untouched(store.scope, store.start, sI, s0, source, docs);
    } else if download.Err? {
      failures := FailRows(docs, None, source, DownloadSource);
      outcome := Done(0, |docs|, false);
      GroupIsUnmoved(store.scope, sI, source, docs);
      UnmovedLater(store.scope.companies, sI, s0, docs, {});
      Untouched(store.scope, store.start, sI, s0, source, docs);
      AllReported(docs, failures);
    } else {
      outcome, failures, moved := MigrateContent(store, source, download.value, docs, deleteSource);
      FrameAfterEnv(store.scope, sI, s0, store.Now(), source, docs);
      if outcome.Done? {
        SeenFrom(docs, moved, store.trace, store.trace, |traceI|, |trace0|);
      }
      forall key { PointedLater(store.trace, store.trace, |traceI|, |trace0|, key); }
    }
    assert store.trace[..|traceI|] == traceI;
    if source in sI.objects && source !in store.objects && Layout(store.scope.companies, store.start) {
      GroupIsCovered(store.scope, store.start, store.trace, |traceI|, source, docs, moved);
    }
  }
}
