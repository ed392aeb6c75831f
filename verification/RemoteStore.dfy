/**
 The remote calls of the backfill. A call may fail, by an error reply or by
 throwing, and a failed write may or may not have landed. Other actors get
 their turn before every call. `trace` records each state the stores went
 through, so a run killed at any point leaves the last state of a prefix.
 */
module RemoteStore {
  import opened Prelude
  import opened StoragePaths
  import opened DocumentStore

  datatype Reply<+T> = Ok(value: T) | Err | Threw

  /** The row was live with its pointer at `key` in a state recorded after the first `from` steps. */
  ghost predicate SeenAt(trace: seq<Entry>, from: nat, id: nat, key: string) {
    exists k :: from <= k < |trace| && RowAt(trace[k].state, id, key)
  }

  ghost predicate PointedSince(trace: seq<Entry>, from: nat, key: string) {
    exists id :: SeenAt(trace, from, id, key)
  }

  lemma SeenGrows(trace: seq<Entry>, longer: seq<Entry>, from: nat, id: nat, key: string)
    requires SeenAt(trace, from, id, key) && trace <= longer
    ensures SeenAt(longer, from, id, key)
  {
    var k :| from <= k < |trace| && RowAt(trace[k].state, id, key);
    assert longer[k] == trace[k];
  }

  ghost predicate RowAt(s: State, id: nat, key: string) {
    id in s.rows && s.rows[id].path == Some(key)
  }

  ghost predicate Referenced(s: State, key: string) {
    exists id :: RowAt(s, id, key)
  }

  class Store {
    var objects: map<string, Bytes>
    var rows: map<nat, Row>
    var issued: set<nat>         // ids ever in the table during the run

    const scope: Scope
    ghost const start: State
    ghost var trace: seq<Entry>
    ghost var faultless: bool    // no call failed so far
    // uploads, downloads, reference checks and rollback removals that failed so far, and pointer updates that threw
    ghost var leaks: nat
    ghost var undisturbed: bool  // no other actor changed a row so far
    ghost var writes: nat        // write calls issued so far

    function Now(): State
      reads this
    {
      State(objects, rows, issued)
    }

    ghost predicate Clean()
      reads this
    {
      faultless && undisturbed
    }

    ghost predicate Valid()
      reads this
    {
      && Initial(start)
      && Trace(scope, start, trace)
      && Now() == Reached(start, trace)
      && rows.Keys <= issued
      && start.issued <= issued
      && (undisturbed ==> Quiet(start, trace))
      && (faultless ==> leaks == 0)
    }

    /** A run begins: nothing has been called yet. */
    constructor (objects: map<string, Bytes>, rows: map<nat, Row>, scope: Scope)
      ensures Valid() && Clean() && trace == [] && writes == 0
      ensures start == Now() == State(objects, rows, rows.Keys)
      ensures this.scope == scope
    {
      this.objects, this.rows, this.issued := objects, rows, rows.Keys;
      this.scope := scope;
      start := State(objects, rows, rows.Keys);
      trace, faultless, leaks, undisturbed, writes := [], true, 0, true, 0;
    }

    /** Record a step that led to the current state. */
    ghost method Record(before: State, event: Event)
      requires Initial(start) && Trace(scope, start, trace)
      requires before == Reached(start, trace)
      requires Step(scope, start, before, event, Now())
      requires before.rows.Keys <= before.issued && start.issued <= before.issued
      requires undisturbed ==> Quiet(start, trace) && (event.Environment? ==> Now() == before)
      requires faultless ==> leaks == 0
      modifies this`trace
      ensures Valid()
      ensures trace == old(trace) + [Entry(event, Now())]
    {
      ghost var longer := trace + [Entry(event, Now())];
      assert longer[..|longer| - 1] == trace;
      trace := longer;
    }

    /** Other actors take their turn. */
    method Interfere()
      requires Valid()
      modifies this`rows, this`issued, this`trace, this`undisturbed
      ensures Valid()
      ensures EnvStep(scope.companies, old(Now()), Now())
      ensures undisturbed ==> old(undisturbed) && Now() == old(Now())
      ensures old(trace) <= trace
    {
      var before := Now();
      var newRows: map<nat, Row>;
      var newIssued: set<nat>;
      assert EnvStep(scope.companies, before, before);
      newRows, newIssued :| EnvStep(scope.companies, before, State(objects, newRows, newIssued));
      undisturbed := undisturbed && newRows == rows && newIssued == issued;
      rows, issued := newRows, newIssued;
      Record(before, Environment);
    }

    method Download(path: string) returns (reply: Reply<Bytes>)
      requires Valid()
      modifies this`rows, this`issued, this`trace, this`undisturbed, this`faultless, this`leaks
      ensures Valid()
      ensures EnvStep(scope.companies, old(Now()), Now())
      ensures undisturbed ==> old(undisturbed) && Now() == old(Now())
      ensures faultless ==> old(faultless)
      ensures leaks >= old(leaks)
      ensures old(trace) <= trace
      ensures reply.Ok? ==> path in objects && reply.value == objects[path]
      ensures reply.Ok? ==> faultless == old(faultless) && leaks == old(leaks)
      ensures !reply.Ok? && path in objects ==> !faultless && leaks == old(leaks) + 1
      ensures reply.Threw? ==> !faultless
    {
      Interfere();
      var faulty: bool := *;
      var throws: bool := *;
      faultless, leaks := faultless && !faulty, if faulty then leaks + 1 else leaks;
      Record(Now(), Call(faulty));
      if faulty {
        reply := if throws then Threw else Err;
      } else if path !in objects {
        reply := Err;
      } else {
        reply := Ok(objects[path]);
      }
    }

    /** `list` on the folder, searched for the name; a failed listing is thrown, never "missing". */
    method Exists(path: string) returns (reply: Reply<bool>)
      requires Valid()
      modifies this`rows, this`issued, this`trace, this`undisturbed, this`faultless
      ensures Valid()
      ensures EnvStep(scope.companies, old(Now()), Now())
      ensures undisturbed ==> old(undisturbed) && Now() == old(Now())
      ensures faultless <==> old(faultless) && reply.Ok?
      ensures old(trace) <= trace
      ensures reply.Ok? ==> (reply.value <==> path in objects)
      ensures !reply.Ok? ==> reply.Threw?
    {
      Interfere();
      var faulty: bool := *;
      faultless := faultless && !faulty;
      Record(Now(), Call(faulty));
      reply := if faulty then Threw else Ok(path in objects);
    }

    /** Does any live row still point at the key? */
    method StillReferenced(path: string) returns (reply: Reply<bool>)
      requires Valid()
      modifies this`rows, this`issued, this`trace, this`undisturbed, this`faultless, this`leaks
      ensures Valid()
      ensures EnvStep(scope.companies, old(Now()), Now())
      ensures undisturbed ==> old(undisturbed) && Now() == old(Now())
      ensures faultless <==> old(faultless) && reply.Ok?
      ensures leaks == old(leaks) + (if reply.Ok? then 0 else 1)
      ensures old(trace) < trace && trace[|trace| - 1].state == Now()
      ensures reply.Ok? ==> (reply.value <==> Referenced(Now(), path))
    {
      Interfere();
      var faulty: bool := *;
      var throws: bool := *;
      faultless, leaks := faultless && !faulty, if faulty then leaks + 1 else leaks;
      Record(Now(), Call(faulty));
      if faulty {
        reply := if throws then Threw else Err;
      } else {
        var found := exists id :: id in rows && rows[id].path == Some(path);
        assert found <==> Referenced(Now(), path) by {
          if Referenced(Now(), path) {
            var id :| RowAt(Now(), id, path);
          }
          if id :| id in rows && rows[id].path == Some(path) {
            assert RowAt(Now(), id, path);
          }
        }
        reply := Ok(found);
      }
    }

    /** A write call's fate: whether it fails, how it says so, and whether it lands all the same. */
    method Attempt() returns (fails: bool, throws: bool, lands: bool)
      modifies this`writes, this`faultless
      ensures writes == old(writes) + 1
      ensures faultless == (old(faultless) && !fails)
      ensures !fails ==> lands
    {
      fails, throws, lands := *, *, *;
      lands := lands || !fails;
      writes := writes + 1;
      faultless := faultless && !fails;
    }

    /** Upload the source bytes to the row's scoped key, never over an object. */
    method Upload(doc: Doc, content: Bytes) returns (reply: Reply<()>, ghost mid: State)
      requires Valid() && Licensed(scope, start, Now(), Uploaded(doc))
      requires objects[doc.row.path.value] == content
      modifies this
      ensures Valid() && EnvStep(scope.companies, old(Now()), mid)
      ensures Now() == mid.(objects := mid.objects[Target(doc.row) := content]) || (!reply.Ok? && Now() == mid)
      ensures undisturbed ==> old(undisturbed) && mid == old(Now())
      ensures faultless <==> old(faultless) && reply.Ok?
      ensures leaks == old(leaks) + (if reply.Ok? then 0 else 1)
      ensures old(trace) <= trace
      ensures writes == old(writes) + 1
    {
      ghost var before := Now();
      Interfere();
      mid := Now();
      EnvKeepsLicence(scope, start, before, Uploaded(doc), mid);
      var fails, throws, lands := Attempt();
      leaks := if fails then leaks + 1 else leaks;
      if lands {
        objects := objects[Target(doc.row) := content];
        Record(mid, Uploaded(doc));
      } else {
        Record(mid, Call(fails));
      }
      reply := if !fails then Ok(()) else if throws then Threw else Err;
    }

    /** Update one row's pointer by id; replies with the number of rows matched. */
    method Repoint(doc: Doc) returns (reply: Reply<nat>, ghost mid: State)
      requires Valid() && Repointable(scope, Now(), doc)
      modifies this
      ensures Valid() && EnvStep(scope.companies, old(Now()), mid)
      ensures (doc.id in mid.rows && Now() == mid.(rows := mid.rows[doc.id := Rehomed(doc.row)]))
              || ((!reply.Ok? || doc.id !in mid.rows) && Now() == mid)
      ensures reply.Ok? ==> reply.value == (if doc.id in rows then 1 else 0)
      ensures undisturbed ==> old(undisturbed) && mid == old(Now())
      ensures faultless <==> old(faultless) && reply.Ok?
      ensures leaks == old(leaks) + (if reply.Threw? then 1 else 0)
      ensures old(trace) < trace && trace[|trace| - 1].state == Now()
      ensures writes == old(writes) + 1
    {
      hide Trace, Licensed, Repointable, Quiet, EnvStep;
      ghost var before := Now();
      Interfere();
      mid := Now();
      var fails, throws, lands := Attempt();
      leaks := if fails && throws then leaks + 1 else leaks;
      var matched := doc.id in rows;
      if matched && lands {
        RepointSteps(scope, start, before, mid, doc);
        rows := rows[doc.id := Rehomed(doc.row)];
        Record(mid, Repointed(doc));
      } else {
        Record(mid, Call(fails));
      }
      reply := if !fails then Ok(if matched then 1 else 0) else if throws then Threw else Err;
    }

    /** Remove a scoped copy no row was found at. */
    method RemoveCopy(doc: Doc, ghost seen: set<nat>) returns (reply: Reply<()>, ghost mid: State)
      requires Valid() && Licensed(scope, start, Now(), RolledBack(doc, seen))
      requires seen <= issued
      modifies this
      ensures Valid() && EnvStep(scope.companies, old(Now()), mid)
      ensures Now() == mid.(objects := mid.objects - {Target(doc.row)}) || (!reply.Ok? && Now() == mid)
      ensures undisturbed ==> old(undisturbed) && mid == old(Now())
      ensures faultless <==> old(faultless) && reply.Ok?
      ensures leaks == old(leaks) + (if reply.Ok? then 0 else 1)
      ensures old(trace) <= trace
      ensures writes == old(writes) + 1
    {
      ghost var before := Now();
      Interfere();
      mid := Now();
      EnvKeepsLicence(scope, start, before, RolledBack(doc, seen), mid);
      var fails, throws, lands := Attempt();
      leaks := if fails then leaks + 1 else leaks;
      if lands {
        objects := objects - {Target(doc.row)};
        Record(mid, RolledBack(doc, seen));
      } else {
        Record(mid, Call(fails));
      }
      reply := if !fails then Ok(()) else if throws then Threw else Err;
    }

    /** Remove a legacy source; `id` is a row it backs or backed. */
    method RemoveSource(key: string, ghost id: nat, ghost seen: set<nat>) returns (reply: Reply<()>, ghost mid: State)
      requires Valid() && Licensed(scope, start, Now(), SourceRemoved(key, id, seen))
      requires seen <= issued
      modifies this
      ensures Valid() && EnvStep(scope.companies, old(Now()), mid)
      ensures Now() == mid.(objects := mid.objects - {key}) || (!reply.Ok? && Now() == mid)
      ensures undisturbed ==> old(undisturbed) && mid == old(Now())
      ensures faultless <==> old(faultless) && reply.Ok?
      ensures leaks == old(leaks)
      ensures old(trace) <= trace
      ensures writes == old(writes) + 1
    {
      ghost var before := Now();
      Interfere();
      mid := Now();
      EnvKeepsLicence(scope, start, before, SourceRemoved(key, id, seen), mid);
      var fails, throws, lands := Attempt();
      if lands {
        objects := objects - {key};
        Record(mid, SourceRemoved(key, id, seen));
      } else {
        Record(mid, Call(fails));
      }
      reply := if !fails then Ok(()) else if throws then Threw else Err;
    }
  }
}
