/**
 The annual report a year-end closing carries (versions, signature requests,
 submissions), what a signer may do to it at any moment, and the gate that
 decides whether the year may be reopened.
 */
module YearEndGate {
  import opened Prelude
  import opened IsoDates

  datatype VersionStatus = Draft | ReadyForSignature | Signed | Filed | Registered | Superseded

  datatype RequestStatus = Pending | SignedRequest | Declined

  datatype Version = Version(number: nat, status: VersionStatus)

  /** `signedAt` is the date the signature was recorded, if any. */
  datatype Request = Request(status: RequestStatus, signedAt: Option<string>, version: Option<nat>)

  datatype Report = Report(versions: map<nat, Version>, requests: map<nat, Request>, submissions: map<nat, string>)

  predicate IsSigned(r: Request) {
    r.status == SignedRequest || r.signedAt.Some?
  }

  predicate Binding(status: VersionStatus) {
    status == Signed || status == Filed || status == Registered
  }

  predicate ReadyAt(r: Report, v: nat) {
    v in r.versions && r.versions[v].status == ReadyForSignature
  }

  predicate SignedAt(r: Report, q: nat) {
    q in r.requests && IsSigned(r.requests[q])
  }

  predicate Unsigned(r: Report) {
    forall q :: q in r.requests ==> !IsSigned(r.requests[q])
  }

  ghost predicate NoneReady(r: Report) {
    forall v :: v in r.versions ==> r.versions[v].status != ReadyForSignature
  }

  /** No signature has been recorded, and none can be. */
  ghost predicate Clear(r: Report) {
    Unsigned(r) && NoneReady(r)
  }

  /**
   What signers and the filing pipeline may do between two calls, any number
   of actions at once. A signature needs a request bound to a version that is
   ready for signature; no version becomes ready, and none is superseded,
   except by the undo itself.
   */
  predicate SignerStep(r: Report, r': Report) {
    && (forall v :: v in r.versions ==> v in r'.versions && Progress(r.versions[v].status, r'.versions[v].status))
    && (forall v :: v in r'.versions && v !in r.versions ==> r'.versions[v].status == Draft)
    && (forall q :: q in r.requests && IsSigned(r.requests[q]) ==> SignedAt(r', q))
    && (forall q :: q in r'.requests && IsSigned(r'.requests[q]) && !SignedAt(r, q) ==>
          r'.requests[q].version.Some? && ReadyAt(r, r'.requests[q].version.value))
    && (forall q :: q in r'.requests && SignedAt(r, q) ==> r'.requests[q].version == r.requests[q].version)
  }

  predicate Progress(before: VersionStatus, after: VersionStatus) {
    match before
    case Draft => after == Draft
    case ReadyForSignature => after == ReadyForSignature || Binding(after)
    case Signed => Binding(after)
    case Filed => after == Filed || after == Registered
    case Registered => after == Registered
    case Superseded => after == Superseded
  }

  lemma SignerStepTransitive(r0: Report, r1: Report, r2: Report)
    requires SignerStep(r0, r1) && SignerStep(r1, r2)
    ensures SignerStep(r0, r2)
  {
    forall v | v in r2.versions && v !in r0.versions
      ensures r2.versions[v].status == Draft
    {
      if v in r1.versions {
        assert r1.versions[v].status == Draft;
      }
    }
    forall q | q in r2.requests && IsSigned(r2.requests[q]) && !SignedAt(r0, q)
      ensures r2.requests[q].version.Some? && ReadyAt(r0, r2.requests[q].version.value)
    {
      if SignedAt(r1, q) {
        assert r2.requests[q].version == r1.requests[q].version;
      } else {
        assert ReadyAt(r1, r2.requests[q].version.value);
      }
    }
  }

  /** Once clear, the report stays clear whatever the signers do. */
  lemma ClearIsStable(r: Report, r': Report)
    requires SignerStep(r, r') && Clear(r)
    ensures Clear(r')
  {
    forall v | v in r'.versions ensures r'.versions[v].status != ReadyForSignature {
      if v in r.versions {
        assert Progress(r.versions[v].status, r'.versions[v].status);
      }
    }
  }

  // ----- the gate -----

  datatype GateVersion = GateVersion(id: nat, number: nat, status: VersionStatus)

  datatype GateRequest = GateRequest(id: nat, request: Request)

  datatype Blocker =
    | SubmissionExists(statuses: set<string>)
    | SignaturesRecorded(count: nat)
    | VersionIsBinding(number: nat, status: VersionStatus)

  datatype Warning =
    | RequestsVoided(count: nat)
    | UnboundSlotsKept(count: nat)
    | DeclinedKept(count: nat)
    | MeetingDateRecorded(date: string)

  datatype GateResult = GateResult(
    blockers: seq<Blocker>,
    warnings: seq<Warning>,
    versionsToSupersede: seq<GateVersion>,
    voidedRequests: seq<GateRequest>)

  /** The positions at which an item is kept. */
  ghost function Kept<T(!new)>(items: seq<T>, keep: T -> bool): set<nat> {
    set i: nat | i < |items| && keep(items[i])
  }

  lemma KeptGrows<T(!new)>(items: seq<T>, keep: T -> bool)
    requires items != []
    ensures |Kept(items, keep)|
            == |Kept(items[..|items| - 1], keep)| + (if keep(items[|items| - 1]) then 1 else 0)
  {
    var front, last := items[..|items| - 1], |items| - 1;
    assert Kept(items, keep) == Kept(front, keep) + if keep(items[last]) then {last} else {};
  }

  /** `Array.prototype.filter`. */
  function Filter<T(!new)>(items: seq<T>, keep: T -> bool): (kept: seq<T>)
    ensures forall x :: x in kept <==> x in items && keep(x)
    ensures |kept| <= |items|
    ensures Distinct(items) ==> Distinct(kept)
    ensures |kept| == |Kept(items, keep)|
  {
    if items == [] then []
    else
      var rest := Filter(items[..|items| - 1], keep);
      var last := items[|items| - 1];
      KeptGrows(items, keep);
      assert items == items[..|items| - 1] + [last];
      if keep(last) then rest + [last] else rest
  }

  const IsSignedRow := (r: GateRequest) => IsSigned(r.request)
  const IsBindingRow := (v: GateVersion) => Binding(v.status)
  const IsReadyRow := (v: GateVersion) => v.status == ReadyForSignature
  const IsPendingRow := (r: GateRequest) => r.request.status == Pending && r.request.signedAt.None?
  const IsDeclinedRow := (r: GateRequest) => r.request.status == Declined

  /** Signed, or carrying a date all the same. */
  ghost function SignedRows(requests: seq<GateRequest>): set<nat> {
    set i: nat | i < |requests| && (requests[i].request.status == SignedRequest || requests[i].request.signedAt.Some?)
  }

  /** Open for signature by nobody in particular. */
  ghost function UnboundRows(requests: seq<GateRequest>): set<nat> {
    set i: nat | i < |requests| && requests[i].request == Request(Pending, None, None)
  }

  ghost function DeclinedRows(requests: seq<GateRequest>): set<nat> {
    set i: nat | i < |requests| && requests[i].request.status == Declined
  }

  /** What the gate refuses for: each reason there is, and no other. */
  ghost predicate Refuses(submissions: seq<string>, requests: seq<GateRequest>, versions: seq<GateVersion>,
                          b: Blocker) {
    match b
    case SubmissionExists(statuses) => submissions != [] && statuses == (set s | s in submissions)
    case SignaturesRecorded(count) => count == |SignedRows(requests)| > 0
    case VersionIsBinding(number, status) =>
      && (status == Signed || status == Filed || status == Registered)
      && exists v :: v in versions && v.number == number && v.status == status
  }

  method CollectBlockers(submissions: seq<string>, requests: seq<GateRequest>, versions: seq<GateVersion>)
      returns (blockers: seq<Blocker>)
    ensures forall b :: b in blockers <==> Refuses(submissions, requests, versions, b)
  {
    blockers := [];
    if |submissions| > 0 {
      blockers := blockers + [SubmissionExists(set s | s in submissions)];
    }
    var signed := Filter(requests, IsSignedRow);
    assert Kept(requests, IsSignedRow) == SignedRows(requests);
    if |signed| > 0 {
      blockers := blockers + [SignaturesRecorded(|signed|)];
    }
    var binding := Filter(versions, IsBindingRow);
    ghost var before := blockers;
    for i := 0 to |binding|
      invariant forall b :: b in blockers <==>
                  b in before || exists j :: 0 <= j < i && b == VersionIsBinding(binding[j].number, binding[j].status)
    {
      blockers := blockers + [VersionIsBinding(binding[i].number, binding[i].status)];
    }
    forall b: Blocker | b.VersionIsBinding? ensures b in blockers <==> Refuses(submissions, requests, versions, b) {
      if b in blockers {
        var j :| 0 <= j < |binding| && b == VersionIsBinding(binding[j].number, binding[j].status);
        assert binding[j] in binding;
      }
      if Refuses(submissions, requests, versions, b) {
        var v :| v in versions && v.number == b.number && v.status == b.status;
        assert v in binding;
      }
    }
  }

  /** The gate is open exactly when nothing with legal weight was read. */
  lemma OpenGateReadNothing(submissions: seq<string>, requests: seq<GateRequest>, versions: seq<GateVersion>,
                            blockers: seq<Blocker>)
    requires forall b :: b in blockers <==> Refuses(submissions, requests, versions, b)
    ensures blockers == [] <==>
              submissions == [] && (forall r :: r in requests ==> NotSigned(r.request))
              && (forall v :: v in versions ==> NotBinding(v.status))
  {
    var signed := SignedRows(requests);
    if blockers == [] {
      assert !Refuses(submissions, requests, versions, SubmissionExists(set s | s in submissions));
      assert !Refuses(submissions, requests, versions, SignaturesRecorded(|signed|));
      forall r | r in requests ensures NotSigned(r.request) {
        var i :| 0 <= i < |requests| && requests[i] == r;
        assert i !in signed;
      }
      forall v | v in versions ensures NotBinding(v.status) {
        assert !Refuses(submissions, requests, versions, VersionIsBinding(v.number, v.status));
      }
    } else {
      assert Refuses(submissions, requests, versions, blockers[0]);
      if i :| i in signed {
        assert requests[i] in requests;
      }
    }
  }

  /** Pending or declined, without a date: paperwork. */
  ghost predicate NotSigned(r: Request) {
    (r.status == Pending || r.status == Declined) && r.signedAt == None
  }

  /** A draft, one to be signed, or one superseded: paperwork. */
  ghost predicate NotBinding(status: VersionStatus) {
    status == Draft || status == ReadyForSignature || status == Superseded
  }

  /** The requests that can no longer be signed once `ids` are superseded. */
  method VoidedAmong(pending: seq<GateRequest>, ids: set<nat>) returns (voided: seq<GateRequest>, unbound: nat)
    ensures forall r :: r in voided <==> r in pending && r.request.version.Some? && r.request.version.value in ids
    ensures unbound == |Filter(pending, IsUnboundRow)|
  {
    voided := Filter(pending, (r: GateRequest) => r.request.version.Some? && r.request.version.value in ids);
    unbound := |Filter(pending, IsUnboundRow)|;
  }

  lemma FilterGrows<T(!new)>(items: seq<T>, last: T, keep: T -> bool)
    ensures Filter(items + [last], keep) == Filter(items, keep) + (if keep(last) then [last] else [])
  {
    assert (items + [last])[..|items|] == items;
  }

  lemma UnboundGrows(requests: seq<GateRequest>, last: GateRequest)
    ensures |UnboundRows(requests + [last])|
            == |UnboundRows(requests)| + (if last.request == Request(Pending, None, None) then 1 else 0)
  {
    assert UnboundRows(requests + [last])
        == UnboundRows(requests) + if last.request == Request(Pending, None, None) then {|requests|} else {};
  }

  /** Filtering twice keeps what passes both. */
  lemma {:induction false} UnboundAmong(requests: seq<GateRequest>)
    ensures |Filter(Filter(requests, IsPendingRow), IsUnboundRow)| == |UnboundRows(requests)|
  {
    if requests == [] {
      assert UnboundRows(requests) == {};
    } else {
      var front, last := requests[..|requests| - 1], requests[|requests| - 1];
      assert requests == front + [last];
      hide Filter, UnboundRows;
      UnboundAmong(front);
      UnboundGrows(front, last);
      FilterGrows(front, last, IsPendingRow);
      var pending := Filter(front, IsPendingRow);
      assert pending + [] == pending;
      FilterGrows(pending, last, IsUnboundRow);
    }
  }

  lemma DeclinedCounted(requests: seq<GateRequest>)
    ensures |Filter(requests, IsDeclinedRow)| == |DeclinedRows(requests)|
  {
    assert Kept(requests, IsDeclinedRow) == DeclinedRows(requests);
  }

  /** Of two dates, the one recorded for the meeting is warned of when it is today or has passed. */
  lemma MeetingIsWarnedOf(requests: seq<GateRequest>, voided: seq<GateRequest>, date: string, today: string)
    requires IsIsoDate(date) && IsIsoDate(today)
    ensures Warns(requests, voided, Some(date), today, MeetingDateRecorded(date)) <==> NotAfter(date, today)
  {
    StringOrderIsDateOrder(date, today);
  }

  const IsUnboundRow := (r: GateRequest) => r.request.version.None?

  /** What the gate warns of. */
  ghost predicate Warns(requests: seq<GateRequest>, voided: seq<GateRequest>, agmDate: Option<string>, today: string,
                        w: Warning) {
    match w
    case RequestsVoided(count) => count == |voided| > 0
    case UnboundSlotsKept(count) => count == |UnboundRows(requests)| > 0
    case DeclinedKept(count) => count == |DeclinedRows(requests)| > 0
    case MeetingDateRecorded(date) => agmDate == Some(date) && date != "" && DateAtMost(date, today)
  }

  method EvaluateYearEndUndoGate(submissions: seq<string>, requests: seq<GateRequest>, versions: seq<GateVersion>,
                                 agmDate: Option<string>, today: string) returns (result: GateResult)
    ensures forall b :: b in result.blockers <==> Refuses(submissions, requests, versions, b)
    // open exactly on paperwork: no submission, nothing signed or dated, no version signed, filed or registered
    ensures result.blockers == [] <==>
              && submissions == []
              && (forall r :: r in requests ==>
                    (r.request.status == Pending || r.request.status == Declined) && r.request.signedAt == None)
              && (forall v :: v in versions ==>
                    v.status == Draft || v.status == ReadyForSignature || v.status == Superseded)
    ensures forall v :: v in result.versionsToSupersede <==> v in versions && v.status == ReadyForSignature
    ensures Distinct(versions) ==> Distinct(result.versionsToSupersede)
    ensures forall r :: r in result.voidedRequests <==>
              && r in requests && r.request.status == Pending && r.request.signedAt.None?
              && r.request.version.Some?
              && exists v :: v in versions && v.id == r.request.version.value && v.status == ReadyForSignature
    ensures forall w :: w in result.warnings <==> Warns(requests, result.voidedRequests, agmDate, today, w)
    // of two dates, the one recorded for the meeting is warned of when it is today or has passed
    ensures agmDate.Some? && IsIsoDate(agmDate.value) && IsIsoDate(today) ==>
              (MeetingDateRecorded(agmDate.value) in result.warnings <==> NotAfter(agmDate.value, today))
  {
    hide DateAtMost, Refuses, Filter, UnboundRows, DeclinedRows, NotAfter, IsIsoDate;
    var blockers := CollectBlockers(submissions, requests, versions);
    OpenGateReadNothing(submissions, requests, versions, blockers);
    var versionsToSupersede := Filter(versions, IsReadyRow);
    var supersededIds := set v | v in versionsToSupersede :: v.id;
    var pending := Filter(requests, IsPendingRow);
    var voidedRequests, unbound := VoidedAmong(pending, supersededIds);
    var declined := Filter(requests, IsDeclinedRow);
    DeclinedCounted(requests);
    UnboundAmong(requests);
    if agmDate.Some? && IsIsoDate(agmDate.value) && IsIsoDate(today) {
      MeetingIsWarnedOf(requests, voidedRequests, agmDate.value, today);
    }
    var warnings := WarningsFor(|voidedRequests|, unbound, |declined|, agmDate, today);
    result := GateResult(blockers, warnings, versionsToSupersede, voidedRequests);
  }

  method WarningsFor(voided: nat, unbound: nat, declined: nat, agmDate: Option<string>, today: string)
      returns (warnings: seq<Warning>)
    ensures forall w :: w in warnings <==>
              match w
              case RequestsVoided(count) => count == voided > 0
              case UnboundSlotsKept(count) => count == unbound > 0
              case DeclinedKept(count) => count == declined > 0
              case MeetingDateRecorded(date) => agmDate == Some(date) && date != "" && DateAtMost(date, today)
  {
    hide DateAtMost;
    warnings := [];
    if voided > 0 {
      warnings := warnings + [RequestsVoided(voided)];
    }
    if unbound > 0 {
      warnings := warnings + [UnboundSlotsKept(unbound)];
    }
    if declined > 0 {
      warnings := warnings + [DeclinedKept(declined)];
    }
    if agmDate.Some? && agmDate.value != "" && DateAtMost(agmDate.value, today) {
      warnings := warnings + [MeetingDateRecorded(agmDate.value)];
    }
  }

  // ----- the reads are not one snapshot -----

  /** Nothing recorded so far, or to be recorded, escapes the versions in `targets`. */
  ghost predicate Confined(r: Report, targets: set<nat>) {
    && (forall v :: ReadyAt(r, v) ==> v in targets)
    && (forall q :: SignedAt(r, q) ==> r.requests[q].version.Some? && r.requests[q].version.value in targets)
  }

  ghost predicate NoneBinding(r: Report) {
    forall v :: v in r.versions ==> NotBinding(r.versions[v].status)
  }

  ghost function ReadyVersions(r: Report): set<nat> {
    set v | v in r.versions && r.versions[v].status == ReadyForSignature
  }

  /**
   Requests read unsigned at one moment, versions read without legal weight at
   another, in either order: every signature there is by now, and every one
   still possible, belongs to a version the undo is about to supersede.
   */
  lemma SplitReadsConfine(atRequests: Report, atVersions: Report, now: Report)
    requires Unsigned(atRequests) && NoneBinding(atVersions)
    requires SignerStep(atRequests, atVersions) || SignerStep(atVersions, atRequests)
    requires SignerStep(atRequests, now) && SignerStep(atVersions, now)
    ensures Confined(now, ReadyVersions(atVersions))
  {
    var targets := ReadyVersions(atVersions);
    forall v | ReadyAt(now, v) ensures v in targets {
      assert v in atVersions.versions;
      assert Progress(atVersions.versions[v].status, now.versions[v].status);
    }
    forall q | SignedAt(now, q)
      ensures now.requests[q].version.Some? && now.requests[q].version.value in targets
    {
      assert !SignedAt(atRequests, q);
      var v := now.requests[q].version.value;
      assert ReadyAt(atRequests, v);
      if SignerStep(atRequests, atVersions) {
        assert Progress(atRequests.versions[v].status, atVersions.versions[v].status);
      } else {
        assert v in atVersions.versions;
        assert Progress(atVersions.versions[v].status, atRequests.versions[v].status);
      }
    }
  }

  lemma ConfinedIsStable(r: Report, r': Report, targets: set<nat>)
    requires SignerStep(r, r') && Confined(r, targets)
    ensures Confined(r', targets)
  {
    forall v | ReadyAt(r', v) ensures v in targets {
      assert v in r.versions && Progress(r.versions[v].status, r'.versions[v].status);
      assert ReadyAt(r, v);
    }
    forall q | SignedAt(r', q)
      ensures r'.requests[q].version.Some? && r'.requests[q].version.value in targets
    {
      if SignedAt(r, q) {
        assert r'.requests[q].version == r.requests[q].version;
      }
    }
  }

  /**
   The promise that no one else supersedes is needed. From a report with one
   request on a ready version, a signature and then a supersede by someone
   else, both after the requests were read and before the versions are, leave
   reads that show nothing, no version to supersede and so no recheck, and a
   signature on record.
   */
  lemma OutsideSupersedeDefeatsTheGate(v: nat, q: nat, number: nat, date: string)
    ensures var atRequests := Report(map[v := Version(number, ReadyForSignature)],
            map[q := Request(Pending, None, Some(v))], map[]);
            var partlySigned := atRequests.(requests := map[q := Request(SignedRequest, Some(date), Some(v))]);
            var atVersions := partlySigned.(versions := map[v := Version(number, Superseded)]);
            && SignerStep(atRequests, partlySigned) && !SignerStep(partlySigned, atVersions)
            && Unsigned(atRequests) && NoneBinding(atVersions) && ReadyVersions(atVersions) == {}
            && SignedAt(atVersions, q) && !Confined(atVersions, ReadyVersions(atVersions))
  {
    var atRequests := Report(map[v := Version(number, ReadyForSignature)], map[q := Request(Pending, None, Some(v))],
        map[]);
    var partlySigned := atRequests.(requests := map[q := Request(SignedRequest, Some(date), Some(v))]);
    var atVersions := partlySigned.(versions := map[v := Version(number, Superseded)]);
    assert ReadyAt(atRequests, v) && SignedAt(partlySigned, q);
    assert v in partlySigned.versions && !Progress(partlySigned.versions[v].status, atVersions.versions[v].status);
    assert SignedAt(atVersions, q);
  }
}
