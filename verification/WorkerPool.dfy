/**
 A bounded pool of workers sharing one counter. The scheduler may let any
 worker take the next step, so what is proved holds for every interleaving.
 */
module WorkerPool {
  import opened Prelude

  /** How a call ended. */
  datatype Settled<+R> = Resolved(value: R) | Rejection

  /** `Failed` holds the index whose call rejected; that worker stops there. */
  datatype Worker = Idle | InFlight(index: nat) | Stopped | Failed(index: nat) {
    predicate Runnable() {
      Idle? || InFlight?
    }

    /** Steps the worker is at most away from stopping, not counting new claims. */
    ghost function Rank(): nat {
      match this
      case Idle => 1
      case InFlight(_) => 2
      case Stopped => 0
      case Failed(_) => 1
    }
  }

  ghost predicate Holds(workers: seq<Worker>, w: int, i: nat) {
    0 <= w < |workers| && (workers[w].InFlight? || workers[w].Failed?) && workers[w].index == i
  }

  ghost function Ranks(workers: seq<Worker>): nat {
    if workers == [] then 0 else Ranks(workers[..|workers| - 1]) + workers[|workers| - 1].Rank()
  }

  lemma {:induction false} RanksAfter(workers: seq<Worker>, w: nat, worker: Worker)
    requires w < |workers|
    ensures Ranks(workers[w := worker]) == Ranks(workers) - workers[w].Rank() + worker.Rank()
  {
    var front, changed := workers[..|workers| - 1], workers[w := worker];
    if w < |workers| - 1 {
      RanksAfter(front, w, worker);
      assert changed[..|workers| - 1] == front[w := worker];
    } else {
      assert changed[..|workers| - 1] == front;
    }
  }

  /** The indexes whose calls are in flight. */
  ghost function InCalls(workers: seq<Worker>): set<nat> {
    set w: nat | w < |workers| && workers[w].InFlight? :: workers[w].index
  }

  lemma {:induction false} AtMostOneCallEach(workers: seq<Worker>)
    ensures |InCalls(workers)| <= |workers|
  {
    if workers != [] {
      var front, last := workers[..|workers| - 1], workers[|workers| - 1];
      AtMostOneCallEach(front);
      assert InCalls(workers) <= InCalls(front) + if last.InFlight? then {last.index} else {};
      SubsetSize(InCalls(workers), InCalls(front) + if last.InFlight? then {last.index} else {});
    }
  }

  ghost function Upto(n: nat): seq<nat> {
    seq(n, i => i)
  }

  /** Every index below the counter is stored or held by exactly one worker, and the rest are untouched. */
  ghost predicate Sound<R>(n: nat, next: nat, workers: seq<Worker>, out: seq<Option<R>>) {
    && |out| == n
    && (forall w, i: nat :: Holds(workers, w, i) ==> i < next && i < n && out[i].None?)
    && (forall w, v, i: nat :: w != v && Holds(workers, w, i) ==> !Holds(workers, v, i))
    && (forall i: nat :: i < next && i < n && out[i].None? ==> exists w :: Holds(workers, w, i))
    && (forall i: nat :: next <= i < n ==> out[i].None?)
    && (forall w :: 0 <= w < |workers| && workers[w].Stopped? ==> n <= next)
  }

  lemma ClaimKeepsSound<R>(n: nat, next: nat, workers: seq<Worker>, out: seq<Option<R>>, w: nat)
    requires Sound(n, next, workers, out) && w < |workers| && workers[w].Idle? && next < n
    ensures Sound(n, next + 1, workers[w := InFlight(next)], out)
  {
    var workers' := workers[w := InFlight(next)];
    forall v, i: nat | v != w ensures Holds(workers', v, i) <==> Holds(workers, v, i) {}
    forall i: nat | i < next + 1 && i < n && out[i].None?
      ensures exists v :: Holds(workers', v, i)
    {
      if i == next {
        assert Holds(workers', w, i);
      } else {
        var v :| Holds(workers, v, i);
        assert Holds(workers', v, i);
      }
    }
  }

  lemma StopKeepsSound<R>(n: nat, next: nat, next': nat, workers: seq<Worker>, out: seq<Option<R>>, w: nat)
    requires Sound(n, next, workers, out) && w < |workers| && workers[w].Idle? && n <= next <= next'
    ensures Sound(n, next', workers[w := Stopped], out)
  {
    var workers' := workers[w := Stopped];
    forall v, i: nat ensures Holds(workers', v, i) <==> Holds(workers, v, i) {}
    forall i: nat | i < n && out[i].None?
      ensures exists v :: Holds(workers', v, i)
    {
      var v :| Holds(workers, v, i);
      assert Holds(workers', v, i);
    }
  }

  lemma SettleKeepsSound<R>(n: nat, next: nat, workers: seq<Worker>, out: seq<Option<R>>, w: nat, value: R)
    requires Sound(n, next, workers, out) && w < |workers| && workers[w].InFlight?
    ensures workers[w].index < n && Sound(n, next, workers[w := Idle], out[workers[w].index := Some(value)])
  {
    var index := workers[w].index;
    assert Holds(workers, w, index);
    var workers', out' := workers[w := Idle], out[index := Some(value)];
    forall v, i: nat | v != w ensures Holds(workers', v, i) <==> Holds(workers, v, i) {}
    forall i: nat | i < next && i < n && out'[i].None?
      ensures exists v :: Holds(workers', v, i)
    {
      var v :| Holds(workers, v, i);
      assert Holds(workers', v, i);
    }
  }

  lemma RejectKeepsSound<R>(n: nat, next: nat, workers: seq<Worker>, out: seq<Option<R>>, w: nat)
    requires Sound(n, next, workers, out) && w < |workers| && workers[w].InFlight?
    ensures Sound(n, next, workers[w := Failed(workers[w].index)], out)
  {
    var index := workers[w].index;
    var workers' := workers[w := Failed(index)];
    forall v, i: nat ensures Holds(workers', v, i) <==> Holds(workers, v, i) {}
    forall i: nat | i < next && i < n && out[i].None?
      ensures exists v :: Holds(workers', v, i)
    {
      var v :| Holds(workers, v, i);
      assert Holds(workers', v, i);
    }
  }

  lemma NothingClaimedYet<R>(n: nat, size: nat, out: seq<Option<R>>)
    requires |out| == n && forall i :: 0 <= i < n ==> out[i].None?
    ensures Sound(n, 0, seq(size, _ => Idle), out)
  {
  }

  lemma HeldInRange<R>(n: nat, next: nat, workers: seq<Worker>, out: seq<Option<R>>, w: nat)
    requires Sound(n, next, workers, out) && w < |workers| && workers[w].InFlight?
    ensures workers[w].index < n
  {
    assert Holds(workers, w, workers[w].index);
  }

  /** When every worker has stopped, nothing is missing. */
  lemma AllStored<R>(n: nat, next: nat, workers: seq<Worker>, out: seq<Option<R>>)
    requires Sound(n, next, workers, out)
    requires n == 0 || workers != []
    requires forall w :: 0 <= w < |workers| ==> workers[w].Stopped?
    ensures n <= next || n == 0
    ensures forall i :: 0 <= i < n ==> out[i].Some?
  {
    if workers != [] {
      assert workers[0].Stopped?;
    }
  }

  lemma {:induction false} IdleRanks(size: nat)
    ensures Ranks(seq(size, _ => Idle)) == size
  {
    if size > 0 {
      IdleRanks(size - 1);
      assert seq(size, _ => Idle)[..size - 1] == seq(size - 1, _ => Idle);
    }
  }

  lemma {:induction false} StoppedRanks(workers: seq<Worker>)
    requires forall w :: 0 <= w < |workers| ==> workers[w].Stopped?
    ensures Ranks(workers) == 0
  {
    if workers != [] {
      StoppedRanks(workers[..|workers| - 1]);
    }
  }

  // ----- every schedule -----

  datatype Pool<+R> = Pool(next: nat, workers: seq<Worker>, out: seq<Option<R>>)

  /** One worker claims an index, finds none left, stores a result or stops at a rejected call. */
  datatype PoolEvent<+R> = Claim(w: nat) | Leave(w: nat) | Settle(w: nat, value: R) | Reject(w: nat)

  datatype PoolEntry<+R> = PoolEntry(event: PoolEvent<R>, state: Pool<R>)

  /** A worker that leaves may count the counter up once more. */
  ghost predicate PoolStep<R(!new)>(n: nat, s: Pool<R>, e: PoolEvent<R>, s': Pool<R>) {
    && e.w < |s.workers|
    && match e
       case Claim(w) =>
         && s.workers[w].Idle? && s.next < n
         && s' == s.(next := s.next + 1, workers := s.workers[w := InFlight(s.next)])
       case Leave(w) =>
         && s.workers[w].Idle? && n <= s.next <= s'.next <= s.next + 1
         && s' == s.(next := s'.next, workers := s.workers[w := Stopped])
       case Settle(w, value) =>
         && s.workers[w].InFlight? && s.workers[w].index < |s.out|
         && s' == s.(workers := s.workers[w := Idle], out := s.out[s.workers[w].index := Some(value)])
       case Reject(w) =>
         && s.workers[w].InFlight?
         && s' == s.(workers := s.workers[w := Failed(s.workers[w].index)])
  }

  ghost function PoolStart<R>(n: nat, size: nat): Pool<R> {
    Pool(0, seq(size, _ => Idle), seq(n, _ => None))
  }

  ghost function PoolReached<R>(n: nat, size: nat, trace: seq<PoolEntry<R>>): Pool<R> {
    if trace == [] then PoolStart(n, size) else trace[|trace| - 1].state
  }

  ghost predicate PoolTrace<R(!new)>(n: nat, size: nat, trace: seq<PoolEntry<R>>) {
    if trace == [] then true
    else
      var before, last := trace[..|trace| - 1], trace[|trace| - 1];
      PoolTrace(n, size, before) && PoolStep(n, PoolReached(n, size, before), last.event, last.state)
  }

  /** The indexes claimed, in the order they were. */
  ghost function Claims<R>(n: nat, size: nat, trace: seq<PoolEntry<R>>): seq<nat> {
    if trace == [] then []
    else
      var before := trace[..|trace| - 1];
      Claims(n, size, before) + (if trace[|trace| - 1].event.Claim? then [PoolReached(n, size, before).next] else [])
  }

  /** No worker has a step to take. */
  ghost predicate AtRest(workers: seq<Worker>) {
    forall w :: 0 <= w < |workers| ==> !workers[w].Runnable()
  }

  predicate SomeFailed(workers: seq<Worker>) {
    exists w :: 0 <= w < |workers| && workers[w].Failed?
  }

  lemma PoolTraceGrows<R(!new)>(n: nat, size: nat, trace: seq<PoolEntry<R>>, e: PoolEvent<R>, s: Pool<R>)
    requires PoolTrace(n, size, trace) && PoolStep(n, PoolReached(n, size, trace), e, s)
    ensures PoolTrace(n, size, trace + [PoolEntry(e, s)]) && PoolReached(n, size, trace + [PoolEntry(e, s)]) == s
  {
    var longer := trace + [PoolEntry(e, s)];
    assert longer[..|longer| - 1] == trace;
  }

  /** Each step takes exactly one from what is left to do. */
  ghost function LeftToDo<R>(n: nat, s: Pool<R>): nat {
    2 * (n - Min(s.next, n)) + Ranks(s.workers)
  }

  lemma PoolStepKeepsSound<R(!new)>(n: nat, s: Pool<R>, e: PoolEvent<R>, s': Pool<R>)
    requires Sound(n, s.next, s.workers, s.out) && PoolStep(n, s, e, s')
    ensures Sound(n, s'.next, s'.workers, s'.out) && |s'.workers| == |s.workers|
    ensures LeftToDo(n, s') + 1 == LeftToDo(n, s)
    ensures Min(s'.next, n) == Min(s.next, n) + (if e.Claim? then 1 else 0)
  {
    hide Sound, Ranks;
    RanksAfter(s.workers, e.w, s'.workers[e.w]);
    match e {
      case Claim(w) => ClaimKeepsSound(n, s.next, s.workers, s.out, w);
      case Leave(w) => StopKeepsSound(n, s.next, s'.next, s.workers, s.out, w);
      case Settle(w, value) => SettleKeepsSound(n, s.next, s.workers, s.out, w, value);
      case Reject(w) => RejectKeepsSound(n, s.next, s.workers, s.out, w);
    }
  }

  /**
   Under every schedule, in every state a pool reaches: the indexes claimed
   are 0, 1, 2 … without gap or repeat, each below the counter is stored or in
   one call, no more calls are in flight than there are workers, and what is
   left to do is what there was less the steps taken.
   */
  lemma {:induction false} EveryPoolStateIsSound<R(!new)>(n: nat, size: nat, trace: seq<PoolEntry<R>>)
    requires PoolTrace(n, size, trace)
    ensures var s := PoolReached(n, size, trace);
            && Sound(n, s.next, s.workers, s.out)
            && |s.workers| == size && |InCalls(s.workers)| <= size
            && Claims(n, size, trace) == Upto(Min(s.next, n))
            && |trace| + LeftToDo(n, s) == 2 * n + size
  {
    AtMostOneCallEach(PoolReached(n, size, trace).workers);
    if trace == [] {
      NothingClaimedYet<R>(n, size, seq(n, _ => None));
      IdleRanks(size);
    } else {
      var before, last := trace[..|trace| - 1], trace[|trace| - 1];
      EveryPoolStateIsSound(n, size, before);
      hide Sound, Ranks, InCalls;
      PoolStepKeepsSound(n, PoolReached(n, size, before), last.event, last.state);
      assert Upto(Min(PoolReached(n, size, before).next, n) + 1)
          == Upto(Min(PoolReached(n, size, before).next, n)) + [Min(PoolReached(n, size, before).next, n)];
    }
  }

  /** A pool stands still exactly when no worker can run: there is no deadlock. */
  lemma StandsStillIff<R(!new)>(n: nat, size: nat, trace: seq<PoolEntry<R>>, value: R)
    requires PoolTrace(n, size, trace)
    ensures var s := PoolReached(n, size, trace);
            AtRest(s.workers) <==> forall e, s' :: !PoolStep(n, s, e, s')
  {
    var s := PoolReached(n, size, trace);
    EveryPoolStateIsSound(n, size, trace);
    if !AtRest(s.workers) {
      var w: nat :| w < |s.workers| && s.workers[w].Runnable();
      if s.workers[w].InFlight? {
        HeldInRange(n, s.next, s.workers, s.out, w);
        var i := s.workers[w].index;
        assert PoolStep(n, s, Settle(w, value), s.(workers := s.workers[w := Idle], out := s.out[i := Some(value)]));
      } else if s.next < n {
        assert PoolStep(n, s, Claim(w), s.(next := s.next + 1, workers := s.workers[w := InFlight(s.next)]));
      } else {
        assert PoolStep(n, s, Leave(w), s.(workers := s.workers[w := Stopped]));
      }
    }
  }

  /** A pool at rest in which no call was rejected has claimed and stored everything, in 2n steps and one a worker. */
  lemma RestIsComplete<R(!new)>(n: nat, size: nat, trace: seq<PoolEntry<R>>)
    requires PoolTrace(n, size, trace) && AtRest(PoolReached(n, size, trace).workers) && (n == 0 || size > 0)
    requires !SomeFailed(PoolReached(n, size, trace).workers)
    ensures Claims(n, size, trace) == Upto(n) && |trace| == 2 * n + size
    ensures |PoolReached(n, size, trace).out| == n
    ensures forall i :: 0 <= i < n ==> PoolReached(n, size, trace).out[i].Some?
  {
    var s := PoolReached(n, size, trace);
    EveryPoolStateIsSound(n, size, trace);
    AllStored(n, s.next, s.workers, s.out);
    StoppedRanks(s.workers);
  }

  // ----- mapWithConcurrency -----

  datatype MapResult<+R> = BadLimit | MapRejected | Mapped(out: seq<R>)

  /** The call for index `i` can resolve with `value`; a call's result may depend on when it was made. */
  ghost predicate Yields<T(!new), R(!new)>(fn: (T, nat, nat) -> Settled<R>, item: T, i: nat, value: R) {
    exists tick: nat :: fn(item, i, tick) == Resolved(value)
  }

  /** Every stored result came from the call on its own item. */
  ghost predicate Delivered<T(!new), R(!new)>(items: seq<T>, fn: (T, nat, nat) -> Settled<R>, out: seq<Option<R>>) {
    |out| == |items| && forall i :: 0 <= i < |out| && out[i].Some? ==> Yields(fn, items[i], i, out[i].value)
  }

  /** What a call replies is what `fn` gives for the index it was made for. */
  ghost predicate Answered<T(!new), R(!new)>(items: seq<T>, fn: (T, nat, nat) -> Settled<R>, s: Pool<R>,
                                             e: PoolEvent<R>) {
    (e.Settle? || e.Reject?) && e.w < |s.workers| && s.workers[e.w].InFlight? && s.workers[e.w].index < |items| ==>
      var i := s.workers[e.w].index;
      if e.Settle? then Yields(fn, items[i], i, e.value) else Refuses(items, fn)
  }

  ghost predicate AllAnswered<T(!new), R(!new)>(items: seq<T>, fn: (T, nat, nat) -> Settled<R>, size: nat,
                                                trace: seq<PoolEntry<R>>) {
    forall k :: 0 <= k < |trace| ==> Answered(items, fn, PoolReached(|items|, size, trace[..k]), trace[k].event)
  }

  ghost predicate Refuses<T(!new), R>(items: seq<T>, fn: (T, nat, nat) -> Settled<R>) {
    exists i: nat, tick: nat :: i < |items| && fn(items[i], i, tick) == Rejection
  }

  lemma OneMoreAnswered<T(!new), R(!new)>(items: seq<T>, fn: (T, nat, nat) -> Settled<R>, size: nat,
                                          trace: seq<PoolEntry<R>>, entry: PoolEntry<R>)
    requires AllAnswered(items, fn, size, trace)
    requires Answered(items, fn, PoolReached(|items|, size, trace), entry.event)
    ensures AllAnswered(items, fn, size, trace + [entry])
  {
    forall k | 0 <= k < |trace + [entry]|
      ensures Answered(items, fn, PoolReached(|items|, size, (trace + [entry])[..k]), (trace + [entry])[k].event)
    {
      assert (trace + [entry])[..k] == trace[..k];
      assert trace[..|trace|] == trace;
    }
  }

  lemma PoolStepDelivers<T(!new), R(!new)>(items: seq<T>, fn: (T, nat, nat) -> Settled<R>, s: Pool<R>,
                                           e: PoolEvent<R>, s': Pool<R>)
    requires PoolStep(|items|, s, e, s') && Answered(items, fn, s, e) && Delivered(items, fn, s.out)
    requires SomeFailed(s.workers) ==> Refuses(items, fn)
    requires e.w < |s.workers| && (s.workers[e.w].InFlight? ==> s.workers[e.w].index < |items|)
    ensures Delivered(items, fn, s'.out) && (SomeFailed(s'.workers) ==> Refuses(items, fn))
  {
    hide Yields, Refuses;
    if SomeFailed(s'.workers) && !e.Reject? {
      var w :| 0 <= w < |s'.workers| && s'.workers[w].Failed?;
      assert s.workers[w].Failed?;
    }
  }

  /** Under every schedule each stored result came from the call on its own item, and a worker failed on a rejection. */
  lemma {:induction false} EveryPoolStateIsDelivered<T(!new), R(!new)>(
      items: seq<T>, fn: (T, nat, nat) -> Settled<R>, size: nat, trace: seq<PoolEntry<R>>)
    requires PoolTrace(|items|, size, trace) && AllAnswered(items, fn, size, trace)
    ensures Delivered(items, fn, PoolReached(|items|, size, trace).out)
    ensures SomeFailed(PoolReached(|items|, size, trace).workers) ==> Refuses(items, fn)
  {
    if trace != [] {
      var before, last := trace[..|trace| - 1], trace[|trace| - 1];
      var s := PoolReached(|items|, size, before);
      EveryPoolStateIsSound(|items|, size, before);
      if s.workers[last.event.w].InFlight? {
        HeldInRange(|items|, s.next, s.workers, s.out, last.event.w);
      }
      hide Sound, Refuses, Yields, Delivered, InCalls, Ranks;
      forall k | 0 <= k < |before|
        ensures Answered(items, fn, PoolReached(|items|, size, before[..k]), before[k].event)
      {
        assert before[..k] == trace[..k];
      }
      EveryPoolStateIsDelivered(items, fn, size, before);
      PoolStepDelivers(items, fn, PoolReached(|items|, size, before), last.event, last.state);
    }
  }

  /** `Math.min(limit, n)` workers; a fractional limit counts as its whole part. */
  function PoolSize(limit: real, n: nat): (size: nat)
    requires limit >= 1.0
    ensures size <= n && size as real <= limit && (size < n ==> limit < (size + 1) as real)
  {
    Min(limit.Floor, n)
  }

  /** `limit` is `None` when it is not a finite number. */
  method MapWithConcurrency<T(!new), R(!new)>(items: seq<T>, limit: Option<real>, fn: (T, nat, nat) -> Settled<R>)
      returns (result: MapResult<R>, ghost trace: seq<PoolEntry<R>>)
    ensures result == BadLimit <==> limit.None? || limit.value < 1.0
    // as many workers as the limit and the items allow, and not one more
    ensures result != BadLimit ==>
              && var size := |PoolReached(|items|, PoolSize(limit.value, |items|), trace).workers|;
              && size <= |items| && size as real <= limit.value
              && (size < |items| ==> limit.value < (size + 1) as real)
    // some schedule of the pool was run until no worker could go on
    ensures result != BadLimit ==>
              && PoolTrace(|items|, PoolSize(limit.value, |items|), trace)
              && AllAnswered(items, fn, PoolSize(limit.value, |items|), trace)
              && AtRest(PoolReached(|items|, PoolSize(limit.value, |items|), trace).workers)
    // the map rejects exactly if a call was rejected
    ensures result != BadLimit ==>
              (result == MapRejected <==>
                 SomeFailed(PoolReached(|items|, PoolSize(limit.value, |items|), trace).workers))
    ensures result == MapRejected ==> Refuses(items, fn)
    // or else every index has been claimed once, and the results are those of the pool in input order
    ensures result.Mapped? ==>
              && var size := PoolSize(limit.value, |items|);
              && Claims(|items|, size, trace) == Upto(|items|) && |trace| == 2 * |items| + size
              && |result.out| == |items| == |PoolReached(|items|, size, trace).out|
              && forall i :: 0 <= i < |items| ==>
                   && PoolReached(|items|, size, trace).out[i] == Some(result.out[i])
                   && Yields(fn, items[i], i, result.out[i])
  {
    hide Sound, Yields, Refuses, Ranks, InCalls, PoolTrace, AllAnswered, PoolReached, PoolStart, Delivered;
    trace := [];
    if limit.None? || limit.value < 1.0 {
      return BadLimit, trace;
    }
    var n, size := |items|, PoolSize(limit.value, |items|);
    var out := new Option<R>[n](_ => None);
    var next := 0;
    var workers := seq(size, _ => Idle);
    NothingRunYet(items, fn, size, out[..]);
    while exists w :: 0 <= w < size && workers[w].Runnable()
      invariant PoolTrace(n, size, trace) && AllAnswered(items, fn, size, trace)
      invariant PoolReached(n, size, trace) == Pool(next, workers, out[..])
      invariant |workers| == size
      decreases 2 * n + size - |trace|
    {
      var w: nat :| w < size && workers[w].Runnable();
      ghost var s, e := Pool(next, workers, out[..]), Leave(w);
      EveryPoolStateIsSound(n, size, trace);
      if workers[w].Idle? {
        var i := next;
        next := next + 1;
        if i < n {
          workers, e := workers[w := InFlight(i)], Claim(w);
        } else {
          workers := workers[w := Stopped];
        }
      } else {
        var i := workers[w].index;
        HeldInRange(n, next, workers, out[..], w);
        var tick: nat := *;
        match fn(items[i], i, tick) {
          case Resolved(value) =>
            Resolves(items, fn, i, tick, value);
            out[i] := Some(value);
            workers, e := workers[w := Idle], Settle(w, value);
            assert out[..] == s.out[i := Some(value)];
          case Rejection =>
            Refused(items, fn, i, tick);
            workers, e := workers[w := Failed(i)], Reject(w);
        }
      }
      ghost var entry := PoolEntry(e, Pool(next, workers, out[..]));
      OneMoreAnswered(items, fn, size, trace, entry);
      PoolTraceGrows(n, size, trace, e, entry.state);
      trace := trace + [entry];
      EveryPoolStateIsSound(n, size, trace);
    }
    EveryPoolStateIsDelivered(items, fn, size, trace);
    if SomeFailed(workers) {
      return MapRejected, trace;
    }
    RestIsComplete(n, size, trace);
    var stored := out[..];
    AllDelivered(items, fn, stored);
    result := Mapped(seq(n, i requires 0 <= i < n => stored[i].value));
  }

  lemma NothingRunYet<T(!new), R(!new)>(items: seq<T>, fn: (T, nat, nat) -> Settled<R>, size: nat, out: seq<Option<R>>)
    requires |out| == |items| && forall i :: 0 <= i < |out| ==> out[i].None?
    ensures PoolTrace<R>(|items|, size, []) && AllAnswered(items, fn, size, [])
    ensures PoolReached(|items|, size, []) == Pool(0, seq(size, _ => Idle), out)
  {
    assert out == seq(|items|, _ => None);
  }

  lemma Resolves<T(!new), R(!new)>(items: seq<T>, fn: (T, nat, nat) -> Settled<R>, i: nat, tick: nat, value: R)
    requires i < |items| && fn(items[i], i, tick) == Resolved(value)
    ensures Yields(fn, items[i], i, value)
  {
  }

  lemma Refused<T(!new), R>(items: seq<T>, fn: (T, nat, nat) -> Settled<R>, i: nat, tick: nat)
    requires i < |items| && fn(items[i], i, tick) == Rejection
    ensures Refuses(items, fn)
  {
  }

  lemma AllDelivered<T(!new), R(!new)>(items: seq<T>, fn: (T, nat, nat) -> Settled<R>, out: seq<Option<R>>)
    requires Delivered(items, fn, out)
    ensures |out| == |items| && forall i :: 0 <= i < |items| && out[i].Some? ==> Yields(fn, items[i], i, out[i].value)
  {
  }

  ghost function SequentialMap<T, R>(items: seq<T>, g: (T, nat) -> R): seq<R> {
    seq(|items|, i requires 0 <= i < |items| => g(items[i], i))
  }

  /** A call whose result does not depend on when it is made: the pool is the sequential map. */
  lemma TimelessCallsMapInOrder<T(!new),
                                  R(!new)>(items: seq<T>, fn: (T, nat, nat) -> Settled<R>, g: (T, nat) -> R,
                                      out: seq<R>)
    requires forall item: T, i: nat, tick: nat :: fn(item, i, tick) == Resolved(g(item, i))
    requires |out| == |items| && forall i :: 0 <= i < |items| ==> Yields(fn, items[i], i, out[i])
    ensures out == SequentialMap(items, g) && !Refuses(items, fn)
  {
    forall i | 0 <= i < |items| ensures out[i] == g(items[i], i) {
      assert Yields(fn, items[i], i, out[i]);
    }
  }
}
