/**
 The parity script's worker pool: every fiscal period is checked exactly once
 under every interleaving, and the gate opens exactly when every case agrees.
 */
module ParityRun {
  import opened Prelude
  import opened WorkerPool
  import opened ParityRows

  /** `guard`: the text is that of the fail-closed guard both paths raise by design. */
  datatype Outcome = Rows(rows: seq<Row>) | Failure(error: string, guard: bool)

  datatype Case = Case(legacy: Outcome, rpc: Outcome)

  /** What the calls for one fiscal period return; `probeFailed` skips the dimension case. */
  datatype Period = Period(cases: seq<Case>, probeFailed: bool)

  datatype Finding = RowDetail(detail: Detail) | Errors(legacy: Outcome, rpc: Outcome)

  ghost predicate WellFormed(p: Period) {
    forall c :: c in p.cases ==>
      && (c.legacy.Rows? ==> AllWhole(c.legacy.rows))
      && (c.rpc.Rows? ==> AllWhole(c.rpc.rows))
  }

  /** Rows with one row per comma-free account. */
  ghost predicate Keyed(p: Period) {
    forall c :: c in p.cases ==>
      && (c.legacy.Rows? ==> Unique(c.legacy.rows) && CommaFree(Accounts(c.legacy.rows)))
      && (c.rpc.Rows? ==> Unique(c.rpc.rows) && CommaFree(Accounts(c.rpc.rows)))
  }

  /** The same rows, or the one failure that counts as parity, on both paths. */
  ghost predicate Agrees(c: Case) {
    c.legacy == c.rpc && (c.legacy.Failure? ==> c.legacy.guard)
  }

  ghost predicate InParity(p: Period) {
    forall c :: c in p.cases ==> Agrees(c)
  }

  predicate PairedGuard(c: Case) {
    c.legacy.Failure? && c.rpc.Failure? && c.legacy.error == c.rpc.error && c.legacy.guard
  }

  /** What one case contributes. */
  ghost predicate Differs(c: Case, f: Finding) {
    match f
    case Errors(legacy, rpc) =>
      && legacy == c.legacy && rpc == c.rpc && (c.legacy.Failure? || c.rpc.Failure?)
      && !(c.legacy.Failure? && c.rpc.Failure? && c.legacy.error == c.rpc.error && c.legacy.guard)
    case RowDetail(d) =>
      && c.legacy.Rows? && c.rpc.Rows?
      && var (a, b) := (c.legacy.rows, c.rpc.rows);
      && (|| Reported(ByAccount(a), ByAccount(b), d)
          || (d == RowOrder && ByAccount(a) == ByAccount(b) && Join(Accounts(a)) != Join(Accounts(b))))
  }

  method CheckCase(c: Case) returns (found: seq<Finding>)
    requires WellFormed(Period([c], false))
    requires c.legacy.Failure? && c.rpc.Failure? && c.legacy.error == c.rpc.error ==> c.legacy.guard == c.rpc.guard
    ensures forall f :: f in found <==> Differs(c, f)
    ensures Keyed(Period([c], false)) ==> (found == [] <==> Agrees(c))
  {
    assert c in Period([c], false).cases;
    found := [];
    if c.legacy.Failure? || c.rpc.Failure? {
      if !PairedGuard(c) {
        found := [Errors(c.legacy, c.rpc)];
      }
      return;
    }
    var details := DiffRows(c.legacy.rows, c.rpc.rows);
    if Keyed(Period([c], false)) {
      EmptyDiffMeansEqual(c.legacy.rows, c.rpc.rows);
    }
    found := seq(|details|, i requires 0 <= i < |details| => RowDetail(details[i]));
    forall f ensures f in found <==> f.RowDetail? && f.detail in details {
      if f.RowDetail? && f.detail in details {
        var i :| 0 <= i < |details| && details[i] == f.detail;
        assert found[i] == f;
      }
    }
  }

  /** Whether the error is the guard's is a matter of its text. */
  ghost predicate TextDecides(p: Period) {
    forall c :: c in p.cases && c.legacy.Failure? && c.rpc.Failure? && c.legacy.error == c.rpc.error ==>
      c.legacy.guard == c.rpc.guard
  }

  method CheckPeriod(p: Period) returns (found: seq<Finding>)
    requires WellFormed(p) && TextDecides(p)
    ensures forall f :: f in found <==> exists k :: 0 <= k < |p.cases| && Differs(p.cases[k], f)
    ensures Keyed(p) ==> (found == [] <==> InParity(p))
  {
    hide Differs, Agrees, Keyed;
    found := [];
    for i := 0 to |p.cases|
      invariant forall f :: f in found <==> exists k :: 0 <= k < i && Differs(p.cases[k], f)
      invariant Keyed(p) ==> (found == [] <==> forall k :: 0 <= k < i ==> Agrees(p.cases[k]))
    {
      var c := p.cases[i];
      var more := CheckCase(c);
      if Keyed(p) { KeyedOne(p, i); }
      found := found + more;
    }
  }

  lemma KeyedOne(p: Period, i: nat)
    requires i < |p.cases| && Keyed(p)
    ensures Keyed(Period([p.cases[i]], false))
  {
  }

  /** `--concurrency`: absent means 4, and anything but a positive integer is refused. */
  function ParseConcurrency(raw: Option<Option<real>>): (size: Option<nat>)
    ensures size.Some? ==> size.value >= 1
    ensures size.None? <==> raw.Some? && (raw.value.None? || raw.value.value < 1.0
                                          || raw.value.value != raw.value.value.Floor as real)
    ensures raw.None? ==> size == Some(4)
    ensures raw.Some? && size.Some? ==> raw.value == Some(size.value as real)
  {
    match raw
    case None => Some(4)
    case Some(None) => None
    case Some(Some(n)) => if n != n.Floor as real || n < 1.0 then None else Some(n.Floor)
  }

  datatype Verdict = Verdict(found: seq<Finding>, probeFailed: bool)

  ghost predicate Passed(v: Verdict) {
    v.found == [] && !v.probeFailed
  }

  /** Each verdict so far is that of its own period. */
  ghost predicate Judged(targets: seq<Period>, verdicts: seq<Option<Verdict>>) {
    && |verdicts| == |targets|
    && forall i :: 0 <= i < |targets| && verdicts[i].Some? && Keyed(targets[i]) ==>
         (Passed(verdicts[i].value) <==> InParity(targets[i]) && !targets[i].probeFailed)
  }

  ghost predicate AllPassed(verdicts: seq<Option<Verdict>>) {
    forall i :: 0 <= i < |verdicts| && verdicts[i].Some? ==> Passed(verdicts[i].value)
  }

  lemma OneMoreVerdict(targets: seq<Period>, verdicts: seq<Option<Verdict>>, i: nat, v: Verdict)
    requires Judged(targets, verdicts) && i < |targets| && verdicts[i].None?
    requires Keyed(targets[i]) ==> (Passed(v) <==> InParity(targets[i]) && !targets[i].probeFailed)
    ensures Judged(targets, verdicts[i := Some(v)])
    ensures AllPassed(verdicts[i := Some(v)]) <==> AllPassed(verdicts) && Passed(v)
  {
    var later := verdicts[i := Some(v)];
    if AllPassed(later) {
      assert later[i].Some?;
      forall k | 0 <= k < |verdicts| && verdicts[k].Some? ensures Passed(verdicts[k].value) {
        assert later[k] == verdicts[k];
      }
    }
  }

  /** Run with `size` workers; the gate is what the exit status says. */
  method RunPool(targets: seq<Period>, size: nat)
      returns (gateOpen: bool, ghost trace: seq<PoolEntry<Verdict>>)
    requires forall p :: p in targets ==> WellFormed(p) && TextDecides(p)
    // some schedule of the pool was run until no worker could go on, and every period was claimed once
    ensures PoolTrace(|targets|, size, trace) && AtRest(PoolReached(|targets|, size, trace).workers)
    ensures size >= 1 ==> Claims(|targets|, size, trace) == Upto(|targets|) && |trace| == 2 * |targets| + size
    ensures Judged(targets, PoolReached(|targets|, size, trace).out)
    ensures gateOpen <==> AllPassed(PoolReached(|targets|, size, trace).out)
    ensures size >= 1 && (forall p :: p in targets ==> Keyed(p)) ==>
              (gateOpen <==> forall p :: p in targets ==> InParity(p) && !p.probeFailed)
    ensures size == 0 ==> gateOpen && Claims(|targets|, size, trace) == []
  {
    hide Sound, Ranks, InCalls, Judged, AllPassed, InParity, Keyed, PoolTrace, PoolReached, PoolStart, SomeFailed;
    var n, cursor := |targets|, 0;
    var workers := seq(size, _ => Idle);
    var found: seq<Finding>, probeFailures := [], 0;
    ghost var verdicts: seq<Option<Verdict>> := seq(n, _ => None);
    trace := [];
    NoVerdictYet(targets, size, verdicts);
    while exists w :: 0 <= w < size && workers[w].Runnable()
      invariant PoolTrace(n, size, trace) && PoolReached(n, size, trace) == Pool(cursor, workers, verdicts)
      invariant |workers| == size && !SomeFailed(workers)
      invariant Judged(targets, verdicts)
      invariant AllPassed(verdicts) <==> found == [] && probeFailures == 0
      invariant size == 0 ==> trace == [] && found == [] && probeFailures == 0
      decreases 2 * n + size - |trace|
    {
      var w: nat :| w < size && workers[w].Runnable();
      ghost var s, e := Pool(cursor, workers, verdicts), Leave(w);
      EveryPoolStateIsSound(n, size, trace);
      if workers[w].Idle? {
        if cursor < n {
          workers, cursor, e := workers[w := InFlight(cursor)], cursor + 1, Claim(w);
        } else {
          workers := workers[w := Stopped];
        }
      } else {
        var i := workers[w].index;
        HeldIsUnjudged(n, cursor, workers, verdicts, w);
        var period := targets[i];
        var more := CheckPeriod(period);
        ghost var v := Verdict(more, period.probeFailed);
        OneMoreVerdict(targets, verdicts, i, v);
        found := found + more;
        probeFailures := probeFailures + (if period.probeFailed then 1 else 0);
        workers, verdicts, e := workers[w := Idle], verdicts[i := Some(v)], Settle(w, v);
      }
      NoneFails(s.workers, w, workers[w]);
      PoolTraceGrows(n, size, trace, e, Pool(cursor, workers, verdicts));
      trace := trace + [PoolEntry(e, Pool(cursor, workers, verdicts))];
      EveryPoolStateIsSound(n, size, trace);
    }
    gateOpen := found == [] && probeFailures == 0;
    if size >= 1 {
      RestIsComplete(n, size, trace);
      AllJudged(targets, verdicts);
    }
  }

  lemma NoneFails(workers: seq<Worker>, w: nat, worker: Worker)
    requires w < |workers| && !SomeFailed(workers) && !worker.Failed?
    ensures !SomeFailed(workers[w := worker])
  {
  }

  lemma NoVerdictYet(targets: seq<Period>, size: nat, verdicts: seq<Option<Verdict>>)
    requires verdicts == seq(|targets|, _ => None)
    ensures Judged(targets, verdicts) && AllPassed(verdicts)
    ensures PoolTrace<Verdict>(|targets|, size, []) && !SomeFailed(seq(size, _ => Idle))
    ensures PoolReached(|targets|, size, []) == Pool(0, seq(size, _ => Idle), verdicts)
  {
  }

  lemma HeldIsUnjudged<R>(n: nat, next: nat, workers: seq<Worker>, out: seq<Option<R>>, w: nat)
    requires Sound(n, next, workers, out) && w < |workers| && workers[w].InFlight?
    ensures workers[w].index < n == |out| && out[workers[w].index].None?
  {
    assert Holds(workers, w, workers[w].index);
  }

  lemma AllJudged(targets: seq<Period>, verdicts: seq<Option<Verdict>>)
    requires Judged(targets, verdicts) && forall i :: 0 <= i < |targets| ==> verdicts[i].Some?
    ensures (forall p :: p in targets ==> Keyed(p)) ==>
              (AllPassed(verdicts) <==> forall p :: p in targets ==> InParity(p) && !p.probeFailed)
  {
    if forall p :: p in targets ==> Keyed(p) {
      forall i | 0 <= i < |targets|
        ensures Passed(verdicts[i].value) <==> InParity(targets[i]) && !targets[i].probeFailed
      {
        assert targets[i] in targets;
      }
      if AllPassed(verdicts) {
        forall p | p in targets ensures InParity(p) && !p.probeFailed {
          var i :| 0 <= i < |targets| && targets[i] == p;
          assert verdicts[i].Some?;
        }
      }
    }
  }
}
