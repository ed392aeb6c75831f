/**
 What every licensed run of the backfill keeps, in every state it can reach:
 under any failures, any rows deleted or added in between, killed anywhere.
 */
module MigrationLaws {
  import opened Prelude
  import opened StoragePaths
  import opened DocumentStore

  // ----- retention -----

  /** The row had its object, and the object was the one its stored hash names. */
  ghost predicate Backed(s: State, row: Row) {
    && row.path.Some?
    && row.path.value in s.objects
    && Fits(row, s.objects[row.path.value], Sha256(s.objects[row.path.value]))
  }

  /** A surviving row still finds the bytes it had at the start. */
  ghost predicate RowRetained(start: State, s: State, id: nat)
    requires id in start.rows && id in s.rows
  {
    var row0, row := start.rows[id], s.rows[id];
    && row.company == row0.company
    && row.hash == row0.hash
    && (Backed(start, row0) ==>
          && row.path.Some?
          && row.path.value in s.objects
          && s.objects[row.path.value] == start.objects[row0.path.value])
  }

  ghost predicate Retained(start: State, s: State) {
    && start.issued <= s.issued
    && s.rows.Keys <= s.issued
    && forall id :: id in start.rows && id in s.rows ==> RowRetained(start, s, id)
  }

  lemma StepRetains(scope: Scope, start: State, s: State, e: Event, s': State)
    requires Initial(start) && Retained(start, s) && Step(scope, start, s, e, s')
    ensures Retained(start, s')
  {
    forall id | id in start.rows && id in s'.rows
      ensures RowRetained(start, s', id)
    {
      assert id in s.rows;
      assert RowRetained(start, s, id);
      if e.Repointed? && e.doc.id == id {
        var row := s.rows[id];
        if Backed(start, start.rows[id]) && row.hash.Some? {
          assert row.hash.value == Sha256(start.objects[start.rows[id].path.value]);
        }
      }
    }
  }

  /**
   In every reachable state of a run, every surviving row whose object was
   present and matched at the start still points at a present object with the
   same bytes.
   */
  lemma {:induction false} EveryReachableStateRetains(scope: Scope, start: State, trace: seq<Entry>)
    requires Initial(start) && Trace(scope, start, trace)
    ensures Retained(start, Reached(start, trace))
  {
    if trace != [] {
      var before := trace[..|trace| - 1];
      EveryReachableStateRetains(scope, start, before);
      StepRetains(scope, start, Reached(start, before), trace[|trace| - 1].event, trace[|trace| - 1].state);
    }
  }

  /** No step overwrites an object: what a key holds after a step is what it held before it. */
  lemma NoObjectOverwritten(scope: Scope, start: State, s: State, e: Event, s': State, key: string)
    requires Step(scope, start, s, e, s')
    requires key in s.objects && key in s'.objects
    ensures s'.objects[key] == s.objects[key]
  {
  }

  /**
   Every write of every run, in terms of the keys and digests alone: a row is
   repointed only from `documents/{rest}` to `documents/{company}/{rest}` and
   only over a copy with the digest stored with it, or without one with the
   bytes at the old key; no row of another company is written; an upload goes
   to a free key and copies the old one; a source goes only when asked to, for
   a row that derives its key.
   */
  lemma EveryWriteIsChecked(scope: Scope, start: State, trace: seq<Entry>, k: nat)
    requires Trace(scope, start, trace) && k < |trace|
    ensures var s, e, s' := Reached(start, trace[..k]), trace[k].event, trace[k].state;
            match e
            case Environment => s'.objects == s.objects
            case Call(_) => s' == s
            case Uploaded(d) =>
              && FromTo(scope, s, d) && Scoped(d) !in s.objects
              && s' == s.(objects := s.objects[Scoped(d) := s.objects[d.row.path.value]])
            case Repointed(d) =>
              && FromTo(scope, s, d) && d.id in s.rows && Scoped(d) in s.objects
              && s' == s.(rows := s.rows[d.id := d.row.(path := Some(Scoped(d)))])
              && (d.row.hash.Some? ==> Sha256(s.objects[Scoped(d)]) == d.row.hash.value)
              && (d.row.hash.None? ==> s.objects[Scoped(d)] == s.objects[d.row.path.value])
            case RolledBack(d, _) =>
              && FromTo(scope, s, d) && Scoped(d) in s.objects
              && s.objects[Scoped(d)] == s.objects[d.row.path.value]
              && s' == s.(objects := s.objects - {Scoped(d)})
            case SourceRemoved(key, id, _) =>
              && scope.deleteSource && s' == s.(objects := s.objects - {key})
              && (id in s.rows ==>
                    && s.rows[id].company.Some? && (scope.window.Some? ==> s.rows[id].company == scope.window)
                    && "documents/" <= key
                    && (s.rows[id].path == Some(key)
                        || s.rows[id].path == Some("documents/" + s.rows[id].company.value + "/" + key[10..])))
  {
    PrefixIsTrace(scope, start, trace, k + 1);
    var upto := trace[..k + 1];
    assert upto[..k] == trace[..k] && upto[|upto| - 1] == trace[k];
    var s := Reached(start, trace[..k]);
    assert Step(scope, start, s, trace[k].event, trace[k].state);
    if trace[k].event.SourceRemoved? && trace[k].event.id in s.rows {
      LegacyKeySpelledOut(s.rows[trace[k].event.id], trace[k].event.key);
    }
  }

  /** The key a row derives is its own, or its own less the company. */
  lemma LegacyKeySpelledOut(row: Row, key: string)
    requires LegacyKey(row) == Some(key)
    ensures row.company.Some? && "documents/" <= key
    ensures row.path == Some(key) || row.path == Some("documents/" + row.company.value + "/" + key[10..])
  {
    if AlreadyScoped(row) {
      var path, prefix := row.path.value, "documents/" + row.company.value + "/";
      assert key[10..] == path[|prefix|..];
      assert path == prefix + path[|prefix|..];
    }
  }

  /** The row is as fetched if it is live, of a company the run is for, and its object at `documents/{rest}`. */
  ghost predicate FromTo(scope: Scope, s: State, d: Doc) {
    && (d.id in s.rows ==> s.rows[d.id] == d.row)
    && d.row.company.Some? && (scope.window.Some? ==> d.row.company == scope.window)
    && d.row.path.Some? && "documents/" <= d.row.path.value && d.row.path.value in s.objects
  }

  /** `documents/{company}/{rest}`. */
  ghost function Scoped(d: Doc): string
    requires d.row.company.Some? && d.row.path.Some? && "documents/" <= d.row.path.value
  {
    "documents/" + d.row.company.value + "/" + d.row.path.value[10..]
  }

  lemma StepKeepsLayout(scope: Scope, start: State, s: State, e: Event, s': State)
    requires Layout(scope.companies, s) && Step(scope, start, s, e, s')
    ensures Layout(scope.companies, s')
  {
    if e.Repointed? {
      RehomedFacts(e.doc.row);
    }
  }

  lemma {:induction false} EveryReachableStateKeepsLayout(scope: Scope, start: State, trace: seq<Entry>)
    requires Layout(scope.companies, start) && Trace(scope, start, trace)
    ensures Layout(scope.companies, Reached(start, trace))
  {
    if trace != [] {
      var before := trace[..|trace| - 1];
      EveryReachableStateKeepsLayout(scope, start, before);
      StepKeepsLayout(scope, start, Reached(start, before), trace[|trace| - 1].event, trace[|trace| - 1].state);
    }
  }

  /** A legacy source goes only when no live row points at it, not even one added since the check. */
  lemma SourceRemovedUnreferenced(scope: Scope, start: State, trace: seq<Entry>, key: string, id: nat, seen: set<nat>,
                                  s': State)
    requires Layout(scope.companies, start) && Trace(scope, start, trace)
    requires Step(scope, start, Reached(start, trace), SourceRemoved(key, id, seen), s')
    ensures forall other :: other in s'.rows ==> s'.rows[other].path != Some(key)
  {
    var s := Reached(start, trace);
    EveryReachableStateKeepsLayout(scope, start, trace);
    forall other | other in s.rows
      ensures s.rows[other].path != Some(key)
    {
      assert LayoutOk(scope.companies, s.rows[other]);
    }
  }

  // ----- rollbacks -----

  /** The row finds the bytes it found in `s0`. */
  ghost predicate StillFinds(s0: State, s: State, id: nat)
    requires id in s0.rows && Backed(s0, s0.rows[id]) && id in s.rows
  {
    && s.rows[id].path.Some? && s.rows[id].path.value in s.objects
    && s.objects[s.rows[id].path.value] == s0.objects[s0.rows[id].path.value]
    && s.rows[id].hash == s0.rows[id].hash
  }

  /** A rollback of the key the row is at, by a reference check that did not find the row in the table. */
  ghost predicate Strands(e: Event, key: Option<string>, id: nat) {
    e.RolledBack? && Candidate(e.doc.row) && key == Some(Target(e.doc.row)) && id !in e.seen
  }

  /** Rows are of ids issued, ids stay issued, and a row the start did not have is at home. */
  lemma {:induction false} IssuedKept(scope: Scope, start: State, trace: seq<Entry>, k: nat)
    requires Initial(start) && Trace(scope, start, trace) && k <= |trace|
    ensures Reached(start, trace[..k]).rows.Keys <= Reached(start, trace).issued
    ensures var s := Reached(start, trace); forall id :: id in s.rows ==>
              id in start.issued || AlreadyScoped(s.rows[id])
  {
    EveryReachableStateRetains(scope, start, trace);
    if trace != [] {
      var before := trace[..|trace| - 1];
      if k < |trace| {
        assert before[..k] == trace[..k];
        IssuedKept(scope, start, before, k);
      } else {
        assert trace[..k] == trace && before[..0] == [];
        IssuedKept(scope, start, before, 0);
      }
    }
  }

  /** One step: a row that finds its bytes loses them exactly to a rollback of its key that had not seen it. */
  lemma AStepStrandsIff(scope: Scope, start: State, s0: State, s: State, e: Event, s': State, id: nat)
    requires Layout(scope.companies, start) && Layout(scope.companies, s) && Step(scope, start, s, e, s')
    requires id in s0.rows && Backed(s0, s0.rows[id]) && id in s.issued && id in s.rows && id in s'.rows
    requires StillFinds(s0, s, id) && (id in start.issued || AlreadyScoped(s.rows[id]))
    ensures StillFinds(s0, s', id) <==> !Strands(e, s.rows[id].path, id)
    ensures Strands(e, s.rows[id].path, id) ==> id !in start.issued
    ensures id in start.issued || s'.rows[id] == s.rows[id]
  {
    match e {
      case SourceRemoved(key, _, seen) =>
        if s.rows[id].path == Some(key) {
          assert LayoutOk(scope.companies, s.rows[id]);
        }
      case Repointed(d) =>
        RehomedFacts(d.row);
      case _ =>
    }
  }

  /**
   Whenever a row has a matching object, be it there from the start or born
   during the run, it finds those bytes in every later state it lives in, or
   a rollback took them: one at that very key, whose check had not seen the row.
   */
  lemma {:induction false} OnlyARollbackCanStrandARow(scope: Scope, start: State, trace: seq<Entry>, k: nat, id: nat)
    requires Initial(start) && Layout(scope.companies, start) && Trace(scope, start, trace) && k <= |trace|
    requires var s0 := Reached(start, trace[..k]); id in s0.rows && Backed(s0, s0.rows[id])
    requires id in Reached(start, trace).rows
    ensures var s0, s := Reached(start, trace[..k]), Reached(start, trace);
            || (StillFinds(s0, s, id) && (id in start.issued || s.rows[id] == s0.rows[id]))
            || (id !in start.issued && exists j :: k <= j < |trace| && Strands(trace[j].event, s0.rows[id].path, id))
  {
    var s0 := Reached(start, trace[..k]);
    if k == |trace| {
      assert trace[..k] == trace;
    } else {
      var before, last := trace[..|trace| - 1], trace[|trace| - 1];
      var s := Reached(start, before);
      assert before[..k] == trace[..k];
      IssuedKept(scope, start, before, k);
      EveryReachableStateKeepsLayout(scope, start, before);
      assert last.event.Repointed? ==> last.event.doc.id in s.rows;
      assert id in s.rows;
      OnlyARollbackCanStrandARow(scope, start, before, k, id);
      if exists j :: k <= j < |before| && Strands(before[j].event, s0.rows[id].path, id) {
        var j :| k <= j < |before| && Strands(before[j].event, s0.rows[id].path, id);
        assert Strands(trace[j].event, s0.rows[id].path, id);
      } else {
        AStepStrandsIff(scope, start, s0, s, last.event, last.state, id);
      }
    }
  }

  /** The script's calls for one row: download the source, list the target, upload, read back. */
  ghost function CopyCalls(start: State, d: Doc, trace: seq<Entry>): seq<Entry>
    requires Candidate(d.row) && d.row.path.value in start.objects
  {
    Called(start, UploadCalls(start, d, trace))
  }

  /** Download the source, list the target and upload. */
  ghost function UploadCalls(start: State, d: Doc, trace: seq<Entry>): seq<Entry>
    requires Candidate(d.row) && d.row.path.value in start.objects
  {
    var listed := Called(start, Called(start, trace));
    listed + [Entry(Environment, start)] + [Entry(Uploaded(d), WithCopy(start, d))]
  }

  lemma CopyCallsTrace(scope: Scope, start: State, d: Doc, trace: seq<Entry>)
    requires Initial(start) && Trace(scope, start, trace) && Reached(start, trace) == start
    requires Known(start, d) && Candidate(d.row) && LayoutOk(scope.companies, d.row) && InWindow(scope.window, d.row)
    requires d.row.path.value in start.objects && Target(d.row) !in start.objects
    ensures Trace(scope, start, CopyCalls(start, d, trace))
            && Reached(start, CopyCalls(start, d, trace)) == WithCopy(start, d)
    ensures Trace(scope, start, UploadCalls(start, d, trace))
            && Reached(start, UploadCalls(start, d, trace)) == WithCopy(start, d)
  {
    CalledIsTrace(scope, start, trace);
    CalledIsTrace(scope, start, Called(start, trace));
    var listed := Called(start, Called(start, trace));
    TraceGrows(scope, start, listed, Environment, start);
    var uploaded := listed + [Entry(Environment, start)];
    TraceGrows(scope, start, uploaded, Uploaded(d), WithCopy(start, d));
    uploaded := uploaded + [Entry(Uploaded(d), WithCopy(start, d))];
    CalledIsTrace(scope, start, uploaded);
  }

  ghost function UpToTheReadBack(start: State, d: Doc): seq<Entry>
    requires Candidate(d.row) && d.row.path.value in start.objects
  {
    CopyCalls(start, d, [])
  }

  /** The update of the pointer fails next, and the table is asked who is at the copy. */
  ghost function UpToTheCheck(start: State, d: Doc): seq<Entry>
    requires Candidate(d.row) && d.row.path.value in start.objects
  {
    Called(start, CallFails(start, UpToTheReadBack(start, d)))
  }

  ghost function WithCopy(s: State, d: Doc): State
    requires Candidate(d.row) && d.row.path.value in s.objects
  {
    s.(objects := s.objects[Target(d.row) := s.objects[d.row.path.value]])
  }

  /** A row with its source in place, and nothing at its target. */
  ghost predicate ToBeCopied(scope: Scope, start: State, d: Doc) {
    && Initial(start) && d.id in start.rows && start.rows[d.id] == d.row
    && Candidate(d.row) && LayoutOk(scope.companies, d.row) && InWindow(scope.window, d.row)
    && d.row.path.value in start.objects && Target(d.row) !in start.objects
    && Fits(d.row, start.objects[d.row.path.value], Sha256(start.objects[d.row.path.value]))
    && forall id :: id in start.rows ==> start.rows[id].path != Some(Target(d.row))
  }

  lemma CopyTraces(scope: Scope, start: State, d: Doc)
    requires ToBeCopied(scope, start, d)
    ensures Trace(scope, start, UpToTheReadBack(start, d))
            && Reached(start, UpToTheReadBack(start, d)) == WithCopy(start, d)
    ensures Trace(scope, start, UpToTheCheck(start, d)) && Reached(start, UpToTheCheck(start, d)) == WithCopy(start, d)
  {
    CopyCallsTrace(scope, start, d, []);
    CalledIsTrace(scope, start, UpToTheReadBack(start, d));
    CalledIsTrace(scope, start, CallFails(start, UpToTheReadBack(start, d)));
  }

  /**
   The calls for a group of one row whose copy cannot be read back, from the
   first to the last: there is no target to repoint to or to roll back. The
   copy stays though no row was ever at it.
   */
  lemma ReadBackFailureLeavesACopy(scope: Scope, start: State, d: Doc)
    requires ToBeCopied(scope, start, d)
    ensures var trace := CallFails(start, UploadCalls(start, d, []));
            && Trace(scope, start, trace) && Target(d.row) in Reached(start, trace).objects
            && forall k, id :: 0 <= k < |trace| && id in trace[k].state.rows ==>
               trace[k].state.rows[id].path != Some(Target(d.row))
  {
    CopyCallsTrace(scope, start, d, []);
    CalledIsTrace(scope, start, UploadCalls(start, d, []));
  }

  /**
   Step 6 asks for the rows of the group only. A row that is at home already
   but has no copy there maps to the same key, and the key is removed.
   */
  lemma StepSixSkipsScopedRows(scope: Scope, start: State, d: Doc, id: nat)
    requires ToBeCopied(scope, start, d) && scope.deleteSource && d.row.path.Some?
    requires forall other :: other in start.rows && start.rows[other].path == d.row.path ==> other == d.id
    requires id in start.rows && AlreadyScoped(start.rows[id]) && LegacyKey(start.rows[id]) == d.row.path
    requires start.rows[id].path.value !in start.objects
    ensures exists s: State ::
              var repointed := WithCopy(start, d).(rows := start.rows[d.id := Rehomed(d.row)]);
              var moved := UpToTheReadBack(start, d)
                           + [Entry(Environment, WithCopy(start, d))] + [Entry(Repointed(d), repointed)];
              && Trace(scope, start, Called(start, moved) + [Entry(Environment, repointed)]
                                     + [Entry(SourceRemoved(d.row.path.value, d.id, start.issued), s)])
              && id in s.rows && s.rows[id] == start.rows[id]
              && d.row.path.value !in s.objects && s.rows[id].path.value !in s.objects
  {
    RehomedFacts(d.row);
    CopyTraces(scope, start, d);
    var copied := WithCopy(start, d);
    var repointed := copied.(rows := start.rows[d.id := Rehomed(d.row)]);
    var trace := UpToTheReadBack(start, d);
    TraceGrows(scope, start, trace, Environment, copied);
    TraceGrows(scope, start, trace + [Entry(Environment, copied)], Repointed(d), repointed);
    var moved := trace + [Entry(Environment, copied)] + [Entry(Repointed(d), repointed)];
    CalledIsTrace(scope, start, moved);
    var s := repointed.(objects := repointed.objects - {d.row.path.value});
    TraceGrows(scope, start, Called(start, moved), Environment, repointed);
    TraceGrows(scope, start, Called(start, moved) + [Entry(Environment, repointed)],
               SourceRemoved(d.row.path.value, d.id, start.issued), s);
  }

  /**
   The table is asked before the copy is removed, and a row born in between
   at the copy's own key is not seen: it loses its object to the rollback.
   */
  lemma RollbackCanStrandANewbornRow(scope: Scope, start: State, d: Doc, newborn: nat)
    requires ToBeCopied(scope, start, d) && forall id :: id in start.issued ==> id < newborn
    ensures exists born: State, s: State ::
              var check := UpToTheCheck(start, d);
              && Trace(scope, start, check + [Entry(Environment, born)] + [Entry(RolledBack(d, start.issued), s)])
              && newborn in born.rows && born.rows[newborn].path == Some(Target(d.row))
                 && Backed(born, born.rows[newborn])
              && newborn in s.rows && Target(d.row) !in s.objects
  {
    RehomedFacts(d.row);
    CopyTraces(scope, start, d);
    var check := UpToTheCheck(start, d);
    var s1 := Reached(start, check);
    var born := s1.(rows := s1.rows[newborn := Rehomed(d.row)], issued := s1.issued + {newborn});
    assert Newborn(scope.companies, s1, newborn, Rehomed(d.row));
    TraceGrows(scope, start, check, Environment, born);
    var s := born.(objects := born.objects - {Target(d.row)});
    TraceGrows(scope, start, check + [Entry(Environment, born)], RolledBack(d, start.issued), s);
  }

  // ----- where a run is heading -----

  /** The row can be re-homed: its source is readable and the target is free or already identical. */
  ghost predicate Movable(window: Option<string>, s: State, id: nat) {
    && id in s.rows
    && var row := s.rows[id];
    && InWindow(window, row) && Candidate(row)
    && row.path.value in s.objects
    && (Target(row) in s.objects ==> s.objects[Target(row)] == s.objects[row.path.value])
  }

  ghost predicate IsTarget(window: Option<string>, s: State, key: string) {
    exists id :: Movable(window, s, id) && Target(s.rows[id]) == key
  }

  ghost function Targets(window: Option<string>, s: State): (keys: set<string>)
    ensures forall key :: key in keys <==> IsTarget(window, s, key)
  {
    set id | id in s.rows && Movable(window, s, id) :: Target(s.rows[id])
  }

  /** A leftover source: it backed a row of the window, and every row still at it can be re-homed. */
  ghost predicate Disposable(window: Option<string>, s: State, key: string) {
    && (exists id :: id in s.rows && InWindow(window, s.rows[id]) && LegacyKey(s.rows[id]) == Some(key))
    && (forall id :: id in s.rows && s.rows[id].path == Some(key) ==> Movable(window, s, id))
  }

  ghost function CopyOf(window: Option<string>, s: State, key: string): Bytes
    requires IsTarget(window, s, key)
  {
    var id :| Movable(window, s, id) && Target(s.rows[id]) == key;
    s.objects[s.rows[id].path.value]
  }

  /** What the final state holds at one key. */
  ghost function FinalObject(goal: Scope, s: State, key: string): Option<Bytes> {
    if goal.deleteSource && Disposable(goal.window, s, key) then None
    else if key in s.objects then Some(s.objects[key])
    else if IsTarget(goal.window, s, key) then Some(CopyOf(goal.window, s, key))
    else None
  }

  ghost function FinalRow(goal: Scope, s: State, id: nat): Option<Row> {
    if id !in s.rows then None
    else if Movable(goal.window, s, id) then Some(Rehomed(s.rows[id]))
    else Some(s.rows[id])
  }

  /** The state a fault-free, undisturbed, unlimited run ends in. */
  ghost function Final(goal: Scope, s: State): State {
    State(
      map key | key in s.objects.Keys + Targets(goal.window, s) && FinalObject(goal, s, key).Some? ::
        FinalObject(goal, s, key).value,
      map id | id in s.rows :: FinalRow(goal, s, id).value,
      s.issued)
  }

  /** Nothing is left to do. */
  ghost predicate Settled(scope: Scope, s: State) {
    && (forall id :: !Movable(scope.window, s, id))
    && (scope.deleteSource ==> forall key :: key in s.objects ==> !Disposable(scope.window, s, key))
  }

  /** Stored hashes and finished copies match the bytes of the legacy object they came from. */
  ghost predicate RowSound(s: State, row: Row) {
    LegacyKey(row).Some? && LegacyKey(row).value in s.objects ==>
      && row.path.value in s.objects
      && Fits(row, s.objects[LegacyKey(row).value], Sha256(s.objects[row.path.value]))
  }

  ghost predicate Sound(s: State) {
    forall id :: id in s.rows ==> RowSound(s, s.rows[id])
  }

  lemma SettledIsFinal(scope: Scope, s: State)
    requires Settled(scope, s)
    ensures Final(scope, s) == s
  {
  }

  // ----- an undisturbed run never leaves its course -----

  /** The facts every state of an undisturbed run shares with its start. */
  ghost predicate OnCourse(scope: Scope, start: State, s: State) {
    && Layout(scope.companies, s)
    && Sound(s)
    && s.rows.Keys == s.issued == start.issued
  }

  lemma TargetIsNoLegacyKey(scope: Scope, s: State, id: nat, other: nat)
    requires Layout(scope.companies, s)
    requires id in s.rows && Candidate(s.rows[id]) && other in s.rows
    ensures LegacyKey(s.rows[other]) != Some(Target(s.rows[id]))
  {
    RehomedFacts(s.rows[id]);
    assert LayoutOk(scope.companies, s.rows[id]);
    assert LayoutOk(scope.companies, s.rows[other]);
  }

  lemma SharedTarget(scope: Scope, s: State, id: nat, other: nat)
    requires Layout(scope.companies, s)
    requires id in s.rows && Candidate(s.rows[id])
    requires other in s.rows && Candidate(s.rows[other])
    requires Target(s.rows[id]) == Target(s.rows[other])
    ensures s.rows[id].path == s.rows[other].path
  {
    assert LayoutOk(scope.companies, s.rows[id]);
    assert LayoutOk(scope.companies, s.rows[other]);
    TargetsDiffer(s.rows[id], s.rows[other]);
  }

  lemma CopyOfIs(scope: Scope, s: State, id: nat)
    requires Layout(scope.companies, s) && Movable(scope.window, s, id)
    ensures IsTarget(scope.window, s, Target(s.rows[id]))
    ensures CopyOf(scope.window, s, Target(s.rows[id])) == s.objects[s.rows[id].path.value]
  {
    forall other | Movable(scope.window, s, other) && Target(s.rows[other]) == Target(s.rows[id]) {
      SharedTarget(scope, s, id, other);
    }
  }

  /** Same rows, and the same rows can be re-homed from the same bytes. */
  ghost predicate SamePlan(window: Option<string>, s: State, s': State) {
    && s'.rows == s.rows && s'.issued == s.issued
    && (forall id :: Movable(window, s, id) <==> Movable(window, s', id))
    && (forall key :: key in s.objects && key in s'.objects ==> s.objects[key] == s'.objects[key])
  }

  lemma SameTargets(goal: Scope, s: State, s': State, key: string)
    requires Layout(goal.companies, s) && SamePlan(goal.window, s, s')
    ensures IsTarget(goal.window, s, key) <==> IsTarget(goal.window, s', key)
    ensures Disposable(goal.window, s, key) <==> Disposable(goal.window, s', key)
    ensures IsTarget(goal.window, s, key) ==> CopyOf(goal.window, s, key) == CopyOf(goal.window, s', key)
  {
    if IsTarget(goal.window, s, key) {
      var id :| Movable(goal.window, s, id) && Target(s.rows[id]) == key;
      CopyOfIs(goal, s, id);
      assert Movable(goal.window, s', id);
      CopyOfIs(goal, s', id);
    }
    if IsTarget(goal.window, s', key) {
      var id :| Movable(goal.window, s', id) && Target(s'.rows[id]) == key;
      assert Movable(goal.window, s, id);
    }
    assert forall id :: id in s.rows ==> s.rows[id] == s'.rows[id];
  }

  lemma FinalAt(goal: Scope, s: State, key: string)
    ensures key in Final(goal, s).objects <==> FinalObject(goal, s, key).Some?
    ensures key in Final(goal, s).objects ==> Final(goal, s).objects[key] == FinalObject(goal, s, key).value
  {
  }

  /** The final state is determined key by key and row by row. */
  lemma FinalPointwise(goal: Scope, s: State, s': State)
    requires s'.issued == s.issued && s.rows.Keys == s'.rows.Keys
    requires forall key :: FinalObject(goal, s, key) == FinalObject(goal, s', key)
    requires forall id :: id in s.rows ==> FinalRow(goal, s, id) == FinalRow(goal, s', id)
    ensures Final(goal, s') == Final(goal, s)
  {
    var f, f' := Final(goal, s), Final(goal, s');
    forall key
      ensures key in f.objects <==> key in f'.objects
      ensures key in f.objects ==> f.objects[key] == f'.objects[key]
    {
      FinalAt(goal, s, key);
      FinalAt(goal, s', key);
    }
    assert f.objects == f'.objects;
    assert f.rows == f'.rows;
  }

  lemma UploadConserves(scope: Scope, goal: Scope, start: State, s: State, d: Doc, s': State)
    requires SameGoal(scope, goal) && OnCourse(goal, start, s)
    requires Step(scope, start, s, Uploaded(d), s')
    ensures Final(goal, s') == Final(goal, s)
  {
    var t := Target(d.row);
    assert Movable(goal.window, s, d.id);
    CopyOfIs(goal, s, d.id);
    forall id
      ensures Movable(goal.window, s, id) <==> Movable(goal.window, s', id)
    {
      if id in s.rows && Candidate(s.rows[id]) {
        TargetIsNoLegacyKey(goal, s, d.id, id);
        if Target(s.rows[id]) == t {
          SharedTarget(goal, s, d.id, id);
        }
      }
    }
    assert SamePlan(goal.window, s, s');
    forall key
      ensures FinalObject(goal, s, key) == FinalObject(goal, s', key)
    {
      SameTargets(goal, s, s', key);
    }
    FinalPointwise(goal, s, s');
  }

  lemma RepointConserves(scope: Scope, goal: Scope, start: State, s: State, d: Doc, s': State)
    requires SameGoal(scope, goal) && OnCourse(goal, start, s)
    requires Step(scope, start, s, Repointed(d), s')
    ensures Final(goal, s') == Final(goal, s)
  {
    var t := Target(d.row);
    RehomedFacts(d.row);
    assert RowSound(s, s.rows[d.id]);
    assert Movable(goal.window, s, d.id);
    CopyOfIs(goal, s, d.id);
    assert !Movable(goal.window, s', d.id);
    assert forall id :: id != d.id ==> (Movable(goal.window, s, id) <==> Movable(goal.window, s', id));
    forall key
      ensures FinalObject(goal, s, key) == FinalObject(goal, s', key)
    {
      RepointKeepsDisposable(goal, s, d, s', key);
      if key !in s.objects {
        RepointKeepsTargets(goal, s, d, s', key);
      }
    }
    FinalPointwise(goal, s, s');
  }

  lemma RepointKeepsDisposable(goal: Scope, s: State, d: Doc, s': State, key: string)
    requires Layout(goal.companies, s)
    requires Movable(goal.window, s, d.id) && s.rows[d.id] == d.row
    requires s' == s.(rows := s.rows[d.id := Rehomed(d.row)])
    ensures Disposable(goal.window, s, key) <==> Disposable(goal.window, s', key)
  {
    RehomedFacts(d.row);
    assert forall id :: id != d.id ==> (Movable(goal.window, s, id) <==> Movable(goal.window, s', id));
    if exists id :: id in s.rows && InWindow(goal.window, s.rows[id]) && LegacyKey(s.rows[id]) == Some(key) {
      var id :| id in s.rows && InWindow(goal.window, s.rows[id]) && LegacyKey(s.rows[id]) == Some(key);
      TargetIsNoLegacyKey(goal, s, d.id, id);
      assert id in s'.rows && InWindow(goal.window, s'.rows[id]) && LegacyKey(s'.rows[id]) == Some(key);
    }
    if exists id :: id in s'.rows && InWindow(goal.window, s'.rows[id]) && LegacyKey(s'.rows[id]) == Some(key) {
      var id :| id in s'.rows && InWindow(goal.window, s'.rows[id]) && LegacyKey(s'.rows[id]) == Some(key);
      TargetIsNoLegacyKey(goal, s, d.id, id);
      assert id in s.rows && InWindow(goal.window, s.rows[id]) && LegacyKey(s.rows[id]) == Some(key);
    }
  }

  lemma RepointKeepsTargets(goal: Scope, s: State, d: Doc, s': State, key: string)
    requires Layout(goal.companies, s) && Layout(goal.companies, s')
    requires Movable(goal.window, s, d.id) && s.rows[d.id] == d.row
    requires s' == s.(rows := s.rows[d.id := Rehomed(d.row)])
    requires key != Target(d.row)
    ensures IsTarget(goal.window, s, key) <==> IsTarget(goal.window, s', key)
    ensures IsTarget(goal.window, s, key) ==> CopyOf(goal.window, s, key) == CopyOf(goal.window, s', key)
  {
    RehomedFacts(d.row);
    assert forall id :: id != d.id ==> (Movable(goal.window, s, id) <==> Movable(goal.window, s', id));
    if IsTarget(goal.window, s, key) {
      var id :| Movable(goal.window, s, id) && Target(s.rows[id]) == key;
      CopyOfIs(goal, s, id);
      assert Movable(goal.window, s', id) && Target(s'.rows[id]) == key;
      CopyOfIs(goal, s', id);
    }
    if IsTarget(goal.window, s', key) {
      var id :| Movable(goal.window, s', id) && Target(s'.rows[id]) == key;
      assert Movable(goal.window, s, id) && Target(s.rows[id]) == key;
    }
  }

  lemma RollbackConserves(scope: Scope, goal: Scope, start: State, s: State, d: Doc, seen: set<nat>, s': State)
    requires SameGoal(scope, goal) && OnCourse(goal, start, s)
    requires Step(scope, start, s, RolledBack(d, seen), s')
    ensures Final(goal, s') == Final(goal, s)
  {
    var t := Target(d.row);
    assert Movable(goal.window, s, d.id);
    CopyOfIs(goal, s, d.id);
    forall id
      ensures Movable(goal.window, s, id) <==> Movable(goal.window, s', id)
    {
      if id in s.rows && Candidate(s.rows[id]) {
        TargetIsNoLegacyKey(goal, s, d.id, id);
        if Target(s.rows[id]) == t {
          SharedTarget(goal, s, d.id, id);
        }
      }
    }
    assert SamePlan(goal.window, s, s');
    forall key
      ensures FinalObject(goal, s, key) == FinalObject(goal, s', key)
    {
      SameTargets(goal, s, s', key);
    }
    FinalPointwise(goal, s, s');
  }

  lemma RemovalConserves(scope: Scope, goal: Scope, start: State, s: State, key: string, id: nat, seen: set<nat>,
                         s': State)
    requires SameGoal(scope, goal) && OnCourse(goal, start, s)
    requires Step(scope, start, s, SourceRemoved(key, id, seen), s')
    ensures Final(goal, s') == Final(goal, s)
  {
    assert InWindow(goal.window, s.rows[id]) && LegacyKey(s.rows[id]) == Some(key);
    assert Disposable(goal.window, s, key);
    forall other
      ensures Movable(goal.window, s, other) <==> Movable(goal.window, s', other)
    {
      if other in s.rows && Candidate(s.rows[other]) {
        TargetIsNoLegacyKey(goal, s, other, id);
      }
    }
    assert SamePlan(goal.window, s, s');
    forall k
      ensures FinalObject(goal, s, k) == FinalObject(goal, s', k)
    {
      SameTargets(goal, s, s', k);
    }
    FinalPointwise(goal, s, s');
  }

  /** A later run may go further than this one, by deleting sources this one must keep. */
  ghost predicate SameGoal(scope: Scope, goal: Scope) {
    && goal.companies == scope.companies
    && goal.window == scope.window
    && (scope.deleteSource ==> goal.deleteSource)
  }

  lemma StepStaysOnCourse(scope: Scope, start: State, s: State, e: Event, s': State)
    requires OnCourse(scope, start, s) && Step(scope, start, s, e, s')
    requires e.Environment? ==> s' == s
    ensures OnCourse(scope, start, s')
  {
    StepKeepsLayout(scope, start, s, e, s');
    forall id | id in s'.rows
      ensures RowSound(s', s'.rows[id])
    {
      assert RowSound(s, s.rows[id]);
      match e {
        case Uploaded(d) => TargetIsNoLegacyKey(scope, s, d.id, id);
        case Repointed(d) => RehomedFacts(d.row);
        case _ =>
      }
    }
  }

  /** Whatever an undisturbed run does next, failed calls included, it is heading for the same state. */
  lemma StepConservesFinal(scope: Scope, goal: Scope, start: State, s: State, e: Event, s': State)
    requires SameGoal(scope, goal) && OnCourse(scope, start, s) && Step(scope, start, s, e, s')
    requires e.Environment? ==> s' == s
    ensures Final(goal, s') == Final(goal, s)
  {
    match e {
      case Environment =>
      case Call(_) =>
      case Uploaded(d) => UploadConserves(scope, goal, start, s, d, s');
      case Repointed(d) => RepointConserves(scope, goal, start, s, d, s');
      case RolledBack(d, seen) => RollbackConserves(scope, goal, start, s, d, seen, s');
      case SourceRemoved(key, id, seen) => RemovalConserves(scope, goal, start, s, key, id, seen, s');
    }
  }

  /**
   Crash and resume: from any state a killed run can leave, a finishing run is
   heading for the state an uninterrupted run would have ended in. The killed
   run may have kept the sources (`--apply`) while the finishing one deletes
   them: the leftovers are part of `Final`.
   */
  lemma {:induction false} EveryReachableStateIsOnCourse(scope: Scope, goal: Scope, start: State, trace: seq<Entry>)
    requires SameGoal(scope, goal)
    requires Initial(start) && Layout(scope.companies, start) && Sound(start)
    requires Trace(scope, start, trace) && Quiet(start, trace)
    ensures OnCourse(scope, start, Reached(start, trace))
    ensures Final(goal, Reached(start, trace)) == Final(goal, start)
  {
    if trace != [] {
      var before := trace[..|trace| - 1];
      var last := trace[|trace| - 1];
      EveryReachableStateIsOnCourse(scope, goal, start, before);
      StepStaysOnCourse(scope, start, Reached(start, before), last.event, last.state);
      StepConservesFinal(scope, goal, start, Reached(start, before), last.event, last.state);
    }
  }

  // ----- deletions only -----

  /** Other actors added no row. */
  ghost predicate OnlyDeletions(start: State, trace: seq<Entry>) {
    if trace == [] then true
    else
      var before, last := trace[..|trace| - 1], trace[|trace| - 1];
      && OnlyDeletions(start, before)
      && (last.event.Environment? ==> last.state.rows.Keys <= Reached(start, before).rows.Keys)
  }

  lemma {:induction false} QuietAddsNothing(start: State, trace: seq<Entry>)
    requires Quiet(start, trace)
    ensures OnlyDeletions(start, trace)
  {
    if trace != [] {
      QuietAddsNothing(start, trace[..|trace| - 1]);
    }
  }

  lemma StepKeepsSound(scope: Scope, start: State, s: State, e: Event, s': State)
    requires Layout(scope.companies, start) && Layout(scope.companies, s) && Sound(s)
    requires s.rows.Keys <= start.issued <= s.issued && Step(scope, start, s, e, s')
    requires e.Environment? ==> s'.rows.Keys <= s.rows.Keys
    ensures Sound(s') && s'.rows.Keys <= start.issued
  {
    forall id | id in s'.rows ensures RowSound(s', s'.rows[id]) {
      assert RowSound(s, s.rows[id]) && LayoutOk(scope.companies, s.rows[id]);
      match e {
        case Uploaded(d) => RehomedFacts(d.row);
        case Repointed(d) => RehomedFacts(d.row);
        case _ =>
      }
    }
  }

  /** Under deletions the layout and the soundness of hashes and copies survive, killed anywhere. */
  lemma {:induction false} EveryReachableStateStaysSound(scope: Scope, start: State, trace: seq<Entry>)
    requires Initial(start) && Layout(scope.companies, start) && Sound(start)
    requires Trace(scope, start, trace) && OnlyDeletions(start, trace)
    ensures Layout(scope.companies, Reached(start, trace)) && Sound(Reached(start, trace))
    ensures Reached(start, trace).rows.Keys <= start.issued
  {
    if trace != [] {
      var before, last := trace[..|trace| - 1], trace[|trace| - 1];
      EveryReachableStateStaysSound(scope, start, before);
      EveryReachableStateRetains(scope, start, before);
      StepKeepsLayout(scope, start, Reached(start, before), last.event, last.state);
      StepKeepsSound(scope, start, Reached(start, before), last.event, last.state);
    }
  }
}
