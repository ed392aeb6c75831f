/**
 The two remote stores the document backfill works on (the `documents` bucket
 and the `document_attachments` table) and the steps that may change them.
 Every remote call is one step; between any two calls other actors may delete
 rows or add rows that are born at company-scoped keys.
 */
module DocumentStore {
  import opened Prelude
  import opened StoragePaths

  type Bytes = seq<bv8>

  /** SHA-256, collisions excluded: a digest stands for the bytes it was computed from. */
  datatype Digest = Sha256(bytes: Bytes)

  /** A row of `document_attachments`; its key in the table orders it by (created_at, id). */
  datatype Row = Row(company: Option<string>, path: Option<string>, hash: Option<Digest>)

  /** A row as this run fetched it. */
  datatype Doc = Doc(id: nat, row: Row)

  datatype State = State(objects: map<string, Bytes>, rows: map<nat, Row>, issued: set<nat>)

  /** What one run was asked to do: the known companies, `--company` and `--delete-source`. */
  datatype Scope = Scope(companies: set<string>, window: Option<string>, deleteSource: bool)

  // ----- how a row relates to the key layout -----

  predicate HasDocument(row: Row) {
    row.company.Some? && row.path.Some? && IsDocumentPath(row.path.value)
  }

  /** A row this backfill must re-home. */
  predicate Candidate(row: Row) {
    HasDocument(row) && !IsCompanyScoped(row.path.value, row.company.value)
  }

  predicate AlreadyScoped(row: Row) {
    row.company.Some? && row.path.Some? && IsCompanyScoped(row.path.value, row.company.value)
  }

  function Target(row: Row): string
    requires Candidate(row)
  {
    CompanyScopedPath(row.path.value, row.company.value).value
  }

  function Rehomed(row: Row): Row
    requires Candidate(row)
  {
    row.(path := Some(Target(row)))
  }

  /** The legacy key whose object backs, or used to back, the row. */
  function LegacyKey(row: Row): Option<string> {
    if AlreadyScoped(row) then LegacyPathFor(row.path.value, row.company.value)
    else if HasDocument(row) then row.path
    else None
  }

  predicate InWindow(window: Option<string>, row: Row) {
    window.None? || row.company == window
  }

  /**
   The layout promise: company ids are slash-free, and the second segment of a
   legacy key (a user id) is never a company id.
   */
  predicate LayoutOk(companies: set<string>, row: Row) {
    && (row.company.Some? ==> row.company.value in companies)
    && (LegacyKey(row).Some? ==> UploaderScoped(companies, LegacyKey(row).value))
  }

  predicate UploaderScoped(companies: set<string>, key: string) {
    forall c :: c in companies ==> !IsCompanyScoped(key, c)
  }

  ghost predicate Layout(companies: set<string>, s: State) {
    && (forall c :: c in companies ==> SlashFree(c))
    && forall id :: id in s.rows ==> LayoutOk(companies, s.rows[id])
  }

  ghost predicate LaidOut(companies: set<string>, docs: seq<Doc>) {
    forall d :: d in docs ==> LayoutOk(companies, d.row)
  }

  /** The digest is the one stored with the row, or without one that of the legacy bytes. */
  ghost predicate Fits(row: Row, content: Bytes, digest: Digest) {
    match row.hash
    case Some(stored) => digest == stored
    case None => digest == Sha256(content)
  }

  /** The digest a copy must have before the row may point at it. */
  function Expected(row: Row, reference: Bytes): Digest {
    row.hash.GetOr(Sha256(reference))
  }

  /** The row is laid out if the table was when the run began. */
  ghost predicate Promised(scope: Scope, start: State, row: Row) {
    Layout(scope.companies, start) ==> LayoutOk(scope.companies, row)
  }

  ghost predicate AllPromised(scope: Scope, start: State, docs: seq<Doc>) {
    forall d :: d in docs ==> Promised(scope, start, d.row)
  }

  lemma PromisedKey(scope: Scope, start: State, row: Row)
    requires Promised(scope, start, row) && LegacyKey(row).Some?
    ensures Layout(scope.companies, start) ==> UploaderScoped(scope.companies, LegacyKey(row).value)
  {
  }

  lemma LaidOutIsPromised(scope: Scope, start: State, docs: seq<Doc>)
    requires Layout(scope.companies, start) ==> LaidOut(scope.companies, docs)
    ensures AllPromised(scope, start, docs)
  {
  }

  // ----- steps -----

  datatype Event =
    | Environment
    | Call(failed: bool)
    | Uploaded(doc: Doc)
    | Repointed(doc: Doc)
    | RolledBack(doc: Doc, seen: set<nat>)
    | SourceRemoved(key: string, id: nat, seen: set<nat>)

  /** The live row, if there still is one, is the row that was fetched. */
  ghost predicate Known(s: State, d: Doc) {
    d.id in s.issued && (d.id in s.rows ==> s.rows[d.id] == d.row)
  }

  /** A row other actors may add: new, last in the table's order, born company-scoped. */
  predicate Newborn(companies: set<string>, s: State, id: nat, row: Row) {
    && (forall prior :: prior in s.issued ==> prior < id)
    && AlreadyScoped(row)
    && LayoutOk(companies, row)
  }

  /** Outside `ids`, rows only disappeared or were born. */
  predicate RowsByOthers(companies: set<string>, s: State, s': State, ids: set<nat>) {
    && s.issued <= s'.issued
    && s'.rows.Keys <= s'.issued
    && forall id :: id in s'.rows && id !in ids ==>
         (id in s.rows && s'.rows[id] == s.rows[id]) || Newborn(companies, s, id, s'.rows[id])
  }

  predicate EnvStep(companies: set<string>, s: State, s': State) {
    s'.objects == s.objects && RowsByOthers(companies, s, s', {})
  }

  /** Every row at `key` appeared after `seen` was read from the table, and was born scoped. */
  ghost predicate Unreferenced(s: State, key: string, seen: set<nat>) {
    forall id :: id in s.rows && s.rows[id].path == Some(key) ==> id !in seen && AlreadyScoped(s.rows[id])
  }

  /** The row need not be live any more when its pointer is updated by id. */
  ghost predicate Repointable(scope: Scope, s: State, d: Doc) {
    && Known(s, d) && Candidate(d.row) && InWindow(scope.window, d.row)
    && d.row.path.value in s.objects && Target(d.row) in s.objects
    && Fits(d.row, s.objects[d.row.path.value], Sha256(s.objects[Target(d.row)]))
  }

  ghost predicate Licensed(scope: Scope, start: State, s: State, e: Event) {
    match e
    case Environment => true
    case Call(_) => true
    case Uploaded(d) =>
      && Known(s, d) && Candidate(d.row) && InWindow(scope.window, d.row)
      && d.row.path.value in s.objects && Target(d.row) !in s.objects
      && Promised(scope, start, d.row)
    case Repointed(d) => Repointable(scope, s, d) && d.id in s.rows
    case RolledBack(d, seen) =>
      && Known(s, d) && Candidate(d.row) && InWindow(scope.window, d.row)
      && start.issued <= seen
      && d.row.path.value in s.objects && Target(d.row) in s.objects
      && s.objects[Target(d.row)] == s.objects[d.row.path.value]
      && Unreferenced(s, Target(d.row), seen)
    case SourceRemoved(key, id, seen) =>
      && scope.deleteSource
      && start.issued <= seen
      && id in s.issued
      && (id in s.rows ==> InWindow(scope.window, s.rows[id]) && LegacyKey(s.rows[id]) == Some(key))
      && Unreferenced(s, key, seen)
      && (Layout(scope.companies, start) ==> UploaderScoped(scope.companies, key))
  }

  ghost predicate Step(scope: Scope, start: State, s: State, e: Event, s': State) {
    && Licensed(scope, start, s, e)
    && match e
       case Environment => EnvStep(scope.companies, s, s')
       case Call(_) => s' == s
       case Uploaded(d) => s' == s.(objects := s.objects[Target(d.row) := s.objects[d.row.path.value]])
       case Repointed(d) => s' == s.(rows := s.rows[d.id := Rehomed(d.row)])
       case RolledBack(d, _) => s' == s.(objects := s.objects - {Target(d.row)})
       case SourceRemoved(key, _, _) => s' == s.(objects := s.objects - {key})
  }

  /** What other actors do takes no licence away, once `seen` only lists ids already issued. */
  lemma EnvKeepsLicence(scope: Scope, start: State, s: State, e: Event, s': State)
    requires EnvStep(scope.companies, s, s') && Licensed(scope, start, s, e)
    requires e.RolledBack? || e.SourceRemoved? ==> e.seen <= s.issued
    requires e.Repointed? ==> e.doc.id in s'.rows
    ensures Licensed(scope, start, s', e)
  {
  }

  lemma RepointSteps(scope: Scope, start: State, s: State, mid: State, d: Doc)
    requires Repointable(scope, s, d) && EnvStep(scope.companies, s, mid) && d.id in mid.rows
    ensures Candidate(d.row) && Step(scope, start, mid, Repointed(d), mid.(rows := mid.rows[d.id := Rehomed(d.row)]))
  {
  }

  datatype Entry = Entry(event: Event, state: State)

  /** The state a run is in after the steps recorded in `trace`. */
  ghost function Reached(start: State, trace: seq<Entry>): State {
    if trace == [] then start else trace[|trace| - 1].state
  }

  /** Every prefix of a trace is a trace, so a killed run leaves `Reached` of one. */
  ghost predicate Trace(scope: Scope, start: State, trace: seq<Entry>) {
    if trace == [] then true
    else
      var before := trace[..|trace| - 1];
      var last := trace[|trace| - 1];
      Trace(scope, start, before) && Step(scope, start, Reached(start, before), last.event, last.state)
  }

  lemma TraceGrows(scope: Scope, start: State, trace: seq<Entry>, e: Event, s: State)
    requires Trace(scope, start, trace) && Step(scope, start, Reached(start, trace), e, s)
    ensures Trace(scope, start, trace + [Entry(e, s)]) && Reached(start, trace + [Entry(e, s)]) == s
  {
    var longer := trace + [Entry(e, s)];
    assert longer[..|longer| - 1] == trace;
  }

  lemma {:induction false} PrefixIsTrace(scope: Scope, start: State, trace: seq<Entry>, k: nat)
    requires Trace(scope, start, trace) && k <= |trace|
    ensures Trace(scope, start, trace[..k])
  {
    if k < |trace| {
      PrefixIsTrace(scope, start, trace[..|trace| - 1], k);
      assert trace[..|trace| - 1][..k] == trace[..k];
    } else {
      assert trace[..k] == trace;
    }
  }

  /** One remote call that changes nothing, no other actor having done anything before it. */
  ghost function Called(start: State, trace: seq<Entry>): seq<Entry> {
    trace + [Entry(Environment, Reached(start, trace))] + [Entry(Call(false), Reached(start, trace))]
  }

  /** One remote call that fails and changes nothing. */
  ghost function CallFails(start: State, trace: seq<Entry>): seq<Entry> {
    trace + [Entry(Environment, Reached(start, trace))] + [Entry(Call(true), Reached(start, trace))]
  }

  lemma CalledIsTrace(scope: Scope, start: State, trace: seq<Entry>)
    requires Trace(scope, start, trace) && Reached(start, trace).rows.Keys <= Reached(start, trace).issued
    ensures Trace(scope, start, Called(start, trace)) && Reached(start, Called(start, trace)) == Reached(start, trace)
    ensures Trace(scope, start, CallFails(start, trace))
    ensures Reached(start, CallFails(start, trace)) == Reached(start, trace)
  {
    var s := Reached(start, trace);
    TraceGrows(scope, start, trace, Environment, s);
    TraceGrows(scope, start, trace + [Entry(Environment, s)], Call(false), s);
    TraceGrows(scope, start, trace + [Entry(Environment, s)], Call(true), s);
  }

  /** No other actor changed a row. */
  ghost predicate Quiet(start: State, trace: seq<Entry>) {
    if trace == [] then true
    else
      var before := trace[..|trace| - 1];
      var last := trace[|trace| - 1];
      Quiet(start, before) && (last.event.Environment? ==> last.state == Reached(start, before))
  }

  /** The state before any step of a run: every live row has been issued. */
  ghost predicate Initial(s: State) {
    s.rows.Keys == s.issued
  }

  lemma RowsByOthersTransitive(companies: set<string>, s0: State, s1: State, s2: State, ids: set<nat>)
    requires RowsByOthers(companies, s0, s1, ids) && RowsByOthers(companies, s1, s2, ids)
    ensures RowsByOthers(companies, s0, s2, ids)
  {
  }

  /** A re-homed row is company-scoped, is never re-homed again, and keeps its legacy key. */
  lemma RehomedFacts(row: Row)
    requires Candidate(row)
    ensures AlreadyScoped(Rehomed(row)) && !Candidate(Rehomed(row)) && HasDocument(Rehomed(row))
    ensures LegacyKey(Rehomed(row)) == LegacyKey(row) == row.path
    ensures Target(row) != row.path.value
  {
    LegacyUndoesScoped(row.path.value, row.company.value);
    ScopedIsDocument(Target(row), row.company.value);
  }

  /** Rows of different keys or companies never share a target. */
  lemma TargetsDiffer(row0: Row, row1: Row)
    requires Candidate(row0) && Candidate(row1)
    requires SlashFree(row0.company.value) && SlashFree(row1.company.value)
    requires Target(row0) == Target(row1)
    ensures row0.path == row1.path && row0.company == row1.company
  {
    ScopedPathInjective(row0.path.value, row0.company.value, row1.path.value, row1.company.value);
  }
}
