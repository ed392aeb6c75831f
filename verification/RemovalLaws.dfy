/**
 Whether a legacy object that is removed was still needed: which rows that map
 to its key have a copy of it, at every removal of every run.
 */
module RemovalLaws {
  import opened Prelude
  import opened StoragePaths
  import opened DocumentStore
  import opened MigrationLaws

  /** The row finds an object with the digest it must have, the legacy bytes being `content`. */
  ghost predicate HasCopy(s: State, row: Row, content: Bytes) {
    && row.path.Some? && row.path.value in s.objects
    && Fits(row, content, Sha256(s.objects[row.path.value]))
  }

  /** The row's scoped copy is readable and has the bytes it must have. */
  ghost predicate VerifiedCopy(s: State, key: string, d: Doc) {
    key in s.objects && HasCopy(s, d.row, s.objects[key])
  }

  /** The live rows that derive the key, but for those in `except`, have their copies. */
  ghost predicate OthersHaveCopies(s: State, key: string, content: Bytes, except: set<nat>) {
    forall id :: id in s.rows && id !in except && LegacyKey(s.rows[id]) == Some(key) ==> HasCopy(s, s.rows[id], content)
  }

  ghost predicate AllHaveCopies(s: State, key: string, content: Bytes) {
    OthersHaveCopies(s, key, content, {})
  }

  // ----- legacy objects never change -----

  /** No run writes at a legacy key. */
  lemma {:induction false} LegacyBytesKept(scope: Scope, start: State, trace: seq<Entry>, key: string)
    requires Initial(start) && Layout(scope.companies, start) && Trace(scope, start, trace)
    requires UploaderScoped(scope.companies, key) && key in Reached(start, trace).objects
    ensures key in start.objects && Reached(start, trace).objects[key] == start.objects[key]
  {
    if trace != [] {
      var before, last := trace[..|trace| - 1], trace[|trace| - 1];
      if last.event.Uploaded? {
        RehomedFacts(last.event.doc.row);
        assert Target(last.event.doc.row) != key;
      }
      LegacyBytesKept(scope, start, before, key);
    }
  }

  // ----- copies stay -----

  /** A row whose legacy object was there at the start has its copy of it. */
  ghost predicate Covered(start: State, s: State, row: Row) {
    LegacyKey(row).Some? && LegacyKey(row).value in start.objects ==>
      HasCopy(s, row, start.objects[LegacyKey(row).value])
  }

  /** This run re-homed the row. */
  ghost predicate RehomedSince(start: State, s: State, id: nat) {
    id in start.rows && id in s.rows && s.rows[id] != start.rows[id]
  }

  ghost predicate CoverKept(start: State, s: State, id: nat)
    requires id in start.rows && id in s.rows
  {
    var row0, row := start.rows[id], s.rows[id];
    && (row == row0 || (Candidate(row0) && row == Rehomed(row0)))
    && (row != row0 || Covered(start, start, row0) ==> Covered(start, s, row))
    && (row == row0 && row0.path.Some? && row0.path.value in start.objects ==> row0.path.value in s.objects)
  }

  lemma RepointCovers(scope: Scope, start: State, trace: seq<Entry>, d: Doc, s': State)
    requires Initial(start) && Layout(scope.companies, start) && Trace(scope, start, trace)
    requires Step(scope, start, Reached(start, trace), Repointed(d), s')
    requires d.id in start.rows && CoverKept(start, Reached(start, trace), d.id)
    ensures CoverKept(start, s', d.id)
  {
    var s := Reached(start, trace);
    RehomedFacts(d.row);
    if s.rows[d.id] != start.rows[d.id] {
      RehomedFacts(start.rows[d.id]);
    }
    assert s.rows[d.id] == start.rows[d.id] == d.row;
    assert LayoutOk(scope.companies, d.row);
    LegacyBytesKept(scope, start, trace, d.row.path.value);
  }

  /** Other steps leave the row as it is, and the object it is at. */
  lemma StepKeepsPlace(scope: Scope, start: State, s: State, e: Event, s': State, id: nat)
    requires Initial(start) && start.issued <= s.issued && Step(scope, start, s, e, s')
    requires id in start.issued && id in s.rows && id in s'.rows && !(e.Repointed? && e.doc.id == id)
    ensures s'.rows[id] == s.rows[id]
    ensures s.rows[id].path.Some? && s.rows[id].path.value in s.objects ==>
              && s.rows[id].path.value in s'.objects
              && s'.objects[s.rows[id].path.value] == s.objects[s.rows[id].path.value]
  {
  }

  /**
   In every reachable state of any run, whatever others add or delete: a row
   this run re-homed has its copy, a row of the start that had its copy then
   has it still, and the object a row was at stays as long as the row is at it.
   */
  lemma {:induction false} CopiesStay(scope: Scope, start: State, trace: seq<Entry>, id: nat)
    requires Initial(start) && Layout(scope.companies, start) && Trace(scope, start, trace)
    requires id in start.rows && id in Reached(start, trace).rows
    ensures CoverKept(start, Reached(start, trace), id)
  {
    if trace != [] {
      var before, last := trace[..|trace| - 1], trace[|trace| - 1];
      EveryReachableStateRetains(scope, start, before);
      assert id in Reached(start, before).rows;
      CopiesStay(scope, start, before, id);
      if last.event.Repointed? && last.event.doc.id == id {
        RepointCovers(scope, start, before, last.event.doc, last.state);
      } else {
        StepKeepsPlace(scope, start, Reached(start, before), last.event, last.state, id);
      }
    }
  }

  // ----- at a removal -----

  /**
   Whenever a legacy object is removed, by step 6 or by the sweep: every live
   row that derives its key is left with a copy, if and only if those this run
   did not re-home had one.
   */
  lemma RemovalIsSafeIff(scope: Scope, start: State, trace: seq<Entry>, key: string, id: nat, seen: set<nat>, s': State)
    requires Initial(start) && Layout(scope.companies, start) && Trace(scope, start, trace)
    requires var s := Reached(start, trace);
             key in s.objects && Step(scope, start, s, SourceRemoved(key, id, seen), s')
    ensures var s := Reached(start, trace);
            AllHaveCopies(s', key, s.objects[key]) <==>
              forall other :: other in s.rows && LegacyKey(s.rows[other]) == Some(key)
                              && !RehomedSince(start, s, other) ==>
                VerifiedCopy(s, key, Doc(other, s.rows[other]))
  {
    var s := Reached(start, trace);
    SourceRemovedUnreferenced(scope, start, trace, key, id, seen, s');
    LegacyBytesKept(scope, start, trace, key);
    forall other | other in s.rows && LegacyKey(s.rows[other]) == Some(key)
      ensures HasCopy(s', s.rows[other], s.objects[key]) <==> VerifiedCopy(s, key, Doc(other, s.rows[other]))
      ensures RehomedSince(start, s, other) ==> VerifiedCopy(s, key, Doc(other, s.rows[other]))
    {
      if other in start.rows {
        CopiesStay(scope, start, trace, other);
      }
    }
  }

  /** From a sound start only rows born during the run can be left without, so under deletions none is. */
  lemma RemovalFromASoundStart(scope: Scope, start: State, trace: seq<Entry>, key: string, id: nat, seen: set<nat>,
                               s': State)
    requires Initial(start) && Layout(scope.companies, start) && Sound(start) && Trace(scope, start, trace)
    requires var s := Reached(start, trace);
             key in s.objects && Step(scope, start, s, SourceRemoved(key, id, seen), s')
    ensures var s := Reached(start, trace);
            AllHaveCopies(s', key, s.objects[key]) <==> OthersHaveCopies(s', key, s.objects[key], start.issued)
    ensures OnlyDeletions(start, trace) ==> AllHaveCopies(s', key, Reached(start, trace).objects[key])
  {
    var s := Reached(start, trace);
    SourceRemovedUnreferenced(scope, start, trace, key, id, seen, s');
    LegacyBytesKept(scope, start, trace, key);
    forall other | other in s.rows && other in start.issued && LegacyKey(s.rows[other]) == Some(key)
      ensures HasCopy(s', s.rows[other], s.objects[key])
    {
      CopiesStay(scope, start, trace, other);
      assert RowSound(start, start.rows[other]);
    }
    if OnlyDeletions(start, trace) {
      EveryReachableStateStaysSound(scope, start, trace);
    }
  }

  /** What a run from a sound start leaves, killed anywhere, is sound exactly if the rows born during it are. */
  lemma SoundUpToNewborns(scope: Scope, start: State, trace: seq<Entry>)
    requires Initial(start) && Layout(scope.companies, start) && Sound(start) && Trace(scope, start, trace)
    ensures var s := Reached(start, trace);
            Sound(s) <==> forall id :: id in s.rows && id !in start.issued ==> RowSound(s, s.rows[id])
  {
    var s := Reached(start, trace);
    EveryReachableStateKeepsLayout(scope, start, trace);
    forall id | id in s.rows && id in start.issued ensures RowSound(s, s.rows[id]) {
      CopiesStay(scope, start, trace, id);
      assert RowSound(start, start.rows[id]) && LayoutOk(scope.companies, s.rows[id]);
      if LegacyKey(s.rows[id]).Some? && LegacyKey(s.rows[id]).value in s.objects {
        LegacyBytesKept(scope, start, trace, LegacyKey(s.rows[id]).value);
      }
    }
  }

  /** Ids are not issued twice: a row that is live was live all along, and is as it was or re-homed. */
  lemma {:induction false} RowKept(scope: Scope, start: State, trace: seq<Entry>, k: nat, id: nat)
    requires Initial(start) && Trace(scope, start, trace) && k <= |trace|
    requires id in Reached(start, trace[..k]).issued && id in Reached(start, trace).rows
    ensures var s0, s := Reached(start, trace[..k]), Reached(start, trace);
            && id in s0.rows
            && (s.rows[id] == s0.rows[id] || (Candidate(s0.rows[id]) && s.rows[id] == Rehomed(s0.rows[id])))
  {
    if k == |trace| {
      assert trace[..k] == trace;
    } else {
      var before, last := trace[..|trace| - 1], trace[|trace| - 1];
      assert before[..k] == trace[..k];
      IssuedStay(scope, start, before, k);
      assert id in Reached(start, before).rows;
      RowKept(scope, start, before, k, id);
      if last.event.Repointed? && last.event.doc.id == id {
        if Reached(start, before).rows[id] != Reached(start, trace[..k]).rows[id] {
          RehomedFacts(Reached(start, trace[..k]).rows[id]);
        }
      }
    }
  }

  lemma {:induction false} IssuedStay(scope: Scope, start: State, trace: seq<Entry>, k: nat)
    requires Trace(scope, start, trace) && k <= |trace|
    ensures Reached(start, trace[..k]).issued <= Reached(start, trace).issued
  {
    if k == |trace| {
      assert trace[..k] == trace;
    } else {
      var before := trace[..|trace| - 1];
      assert before[..k] == trace[..k];
      IssuedStay(scope, start, before, k);
    }
  }

  /** A row fetched as a candidate for the key, and at its target now if it is live, has its copy. */
  lemma MovedIsCovered(scope: Scope, start: State, trace: seq<Entry>, k: nat, d: Doc, key: string)
    requires Initial(start) && Layout(scope.companies, start) && Trace(scope, start, trace) && k <= |trace|
    requires UploaderScoped(scope.companies, key) && key in Reached(start, trace[..k]).objects
    requires Candidate(d.row) && d.row.path == Some(key) && Known(Reached(start, trace[..k]), d)
    requires d.id in Reached(start, trace).rows && Reached(start, trace).rows[d.id] == Rehomed(d.row)
    ensures HasCopy(Reached(start, trace), Reached(start, trace).rows[d.id], Reached(start, trace[..k]).objects[key])
  {
    PrefixIsTrace(scope, start, trace, k);
    LegacyBytesKept(scope, start, trace[..k], key);
    RowKept(scope, start, trace, k, d.id);
    IssuedKept(scope, start, trace[..k], k);
    assert trace[..k][..k] == trace[..k];
    CopiesStay(scope, start, trace[..k], d.id);
    CopiesStay(scope, start, trace, d.id);
    RehomedFacts(d.row);
    if Reached(start, trace[..k]).rows[d.id] != start.rows[d.id] {
      RehomedFacts(start.rows[d.id]);
    }
  }

  /** A row fetched as a candidate for a key whose object went has its copy. */
  lemma CandidateIsCovered(scope: Scope, start: State, trace: seq<Entry>, k: nat, d: Doc, key: string)
    requires Initial(start) && Layout(scope.companies, start) && Trace(scope, start, trace) && k <= |trace|
    requires Candidate(d.row) && d.row.path == Some(key) && Known(Reached(start, trace[..k]), d)
    requires key in start.objects && key !in Reached(start, trace).objects && d.id in Reached(start, trace).rows
    ensures HasCopy(Reached(start, trace), Reached(start, trace).rows[d.id], start.objects[key])
  {
    PrefixIsTrace(scope, start, trace, k);
    RowKept(scope, start, trace, k, d.id);
    IssuedKept(scope, start, trace[..k], k);
    assert trace[..k][..k] == trace[..k];
    CopiesStay(scope, start, trace[..k], d.id);
    CopiesStay(scope, start, trace, d.id);
    RehomedFacts(d.row);
    if Candidate(start.rows[d.id]) {
      RehomedFacts(start.rows[d.id]);
    }
  }
}
