/**
 Offset paging through `document_attachments` in (created_at, id) order, while
 other actors insert and delete rows between two page requests.
 */
module Paging {
  import opened Prelude
  import opened StoragePaths
  import opened DocumentStore
  import opened MigrationLaws
  import opened RemoteStore

  const PAGE_SIZE := 500

  ghost predicate Ascending(ids: seq<nat>) {
    forall i, j :: 0 <= i < j < |ids| ==> ids[i] < ids[j]
  }

  predicate IsGreatest(ids: set<nat>, m: nat) {
    m in ids && forall id :: id in ids ==> id <= m
  }

  function SortedIds(ids: set<nat>): seq<nat>
    decreases |ids|
  {
    if ids == {} then []
    else
      Greatest(ids);
      var m :| IsGreatest(ids, m);
      SortedIds(ids - {m}) + [m]
  }

  lemma {:induction false} SortedIdsSpec(ids: set<nat>)
    ensures Ascending(SortedIds(ids))
    ensures forall id :: id in SortedIds(ids) <==> id in ids
    decreases |ids|
  {
    if ids != {} {
      Greatest(ids);
      var m :| IsGreatest(ids, m);
      var rest := SortedIds(ids - {m});
      SortedIdsSpec(ids - {m});
      assert SortedIds(ids) == rest + [m];
      forall i, j | 0 <= i < j < |rest + [m]|
        ensures (rest + [m])[i] < (rest + [m])[j]
      {
        assert rest[i] in rest;
      }
    }
  }

  lemma Greatest(ids: set<nat>)
    requires ids != {}
    ensures exists m :: IsGreatest(ids, m)
    decreases |ids|
  {
    var x :| x in ids;
    if ids != {x} {
      Greatest(ids - {x});
      var m :| IsGreatest(ids - {x}, m);
      assert forall id :: id in ids ==> id == x || id in ids - {x};
      var top := if x <= m then m else x;
      assert IsGreatest(ids, top);
    } else {
      assert IsGreatest(ids, x);
    }
  }

  /** The rows a page request ranges over: those with a pointer, in the window. */
  function ListedIds(window: Option<string>, rows: map<nat, Row>): set<nat> {
    set id | id in rows && rows[id].path.Some? && InWindow(window, rows[id])
  }

  function Listing(window: Option<string>, rows: map<nat, Row>): seq<nat> {
    SortedIds(ListedIds(window, rows))
  }

  /** `.range(from, from + PAGE_SIZE - 1)` of a listing. */
  function Page(listing: seq<nat>, from: nat): seq<nat> {
    listing[Min(from, |listing|)..Min(from + PAGE_SIZE, |listing|)]
  }

  // ----- ranks -----

  /** An element's position in an ascending list is the number of smaller elements. */
  lemma RankIsCount(ids: seq<nat>, r: nat)
    requires Ascending(ids) && r < |ids|
    ensures |set id | id in ids && id < ids[r]| == r
  {
    var smaller := set id | id in ids && id < ids[r];
    var front := set i | 0 <= i < r :: ids[i];
    assert smaller == front by {
      forall id | id in smaller ensures id in front {
        var i :| 0 <= i < |ids| && ids[i] == id;
        assert i < r;
      }
    }
    FrontCardinality(ids, r);
  }

  lemma FrontCardinality(ids: seq<nat>, r: nat)
    requires Ascending(ids) && r <= |ids|
    ensures |set i | 0 <= i < r :: ids[i]| == r
  {
    if r > 0 {
      FrontCardinality(ids, r - 1);
      assert (set i | 0 <= i < r :: ids[i]) == (set i | 0 <= i < r - 1 :: ids[i]) + {ids[r - 1]};
    }
  }

  /**
   What a later page can return. Between two requests rows disappear or are
   appended, so ranks only fall: an element at or after `from` in the later
   listing comes after everything before `from` in the earlier one.
   */
  lemma LaterPageIsLater(before: seq<nat>, after: seq<nat>, from: nat, i: nat, r: nat)
    requires Ascending(before) && Ascending(after)
    requires forall id, old' :: id in after && id !in before && old' in before ==> old' < id
    requires i < from && i < |before| && from <= r < |after|
    ensures before[i] < after[r]
  {
    if after[r] <= before[i] {
      var smallerAfter := set id | id in after && id < after[r];
      var smallerBefore := set id | id in before && id < before[i];
      RankIsCount(after, r);
      RankIsCount(before, i);
      forall id | id in smallerAfter ensures id in smallerBefore {
        assert before[i] in before && id < before[i];
      }
      SubsetSize(smallerAfter, smallerBefore);
    }
  }

  /**
   An element is returned by the request for `from` exactly when the number of
   listed elements before it at that moment lies in the page.
   */
  lemma OnPageIffRank(listing: seq<nat>, from: nat, r: nat)
    requires Ascending(listing) && r < |listing|
    ensures listing[r] in Page(listing, from) <==> from <= r < from + 500
  {
    var lo := Min(from, |listing|);
    if listing[r] in Page(listing, from) {
      var k :| 0 <= k < |Page(listing, from)| && Page(listing, from)[k] == listing[r];
      assert listing[lo + k] == listing[r];
    }
    if from <= r < from + PAGE_SIZE {
      assert Page(listing, from)[r - lo] == listing[r];
    }
  }

  lemma RankAfterDeletion(before: seq<nat>, after: seq<nat>, from: nat, gone: nat, r: nat)
    requires Ascending(before) && Ascending(after)
    requires forall id :: id in after <==> id in before && id != gone
    requires from < |before| && gone in before[..from]
    requires r < |after| && after[r] == before[from]
    ensures r == from - 1
  {
    RankIsCount(after, r);
    RankIsCount(before, from);
    var smallerAfter := set id | id in after && id < before[from];
    var smaller := set id | id in before && id < before[from];
    var i :| 0 <= i < from && before[i] == gone;
    assert smaller == smallerAfter + {gone};
  }

  /**
   Deleting one row of the pages already read, before the next page is read,
   hides the row at rank `from`: no request, past or future, returns it.
   */
  lemma DeletionBetweenPagesHidesARow(window: Option<string>, rows: map<nat, Row>, from: nat, gone: nat)
    requires from < |Listing(window, rows)|
    requires gone in Listing(window, rows)[..from]
    ensures var hidden := Listing(window, rows)[from];
            var later := Listing(window, rows - {gone});
            && hidden in later
            && hidden !in Listing(window, rows)[..from]
            && (forall next :: from <= next ==> hidden !in Page(later, next))
  {
    var listing := Listing(window, rows);
    var later := Listing(window, rows - {gone});
    var hidden := listing[from];
    SortedIdsSpec(ListedIds(window, rows));
    SortedIdsSpec(ListedIds(window, rows - {gone}));
    assert gone in listing;
    assert ListedIds(window, rows - {gone}) == ListedIds(window, rows) - {gone};
    assert forall id :: id in later <==> id in listing && id != gone;
    var i :| 0 <= i < from && listing[i] == gone;
    assert hidden in later;
    var r :| 0 <= r < |later| && later[r] == hidden;
    RankAfterDeletion(listing, later, from, gone, r);
    forall next | from <= next
      ensures hidden !in Page(later, next)
    {
      OnPageIffRank(later, next, r);
    }
  }

  // ----- one request -----

  /** A live row that has not been read is on no page from rank `from` on. */
  ghost predicate HidesARow(read: seq<nat>, later: seq<nat>, from: nat) {
    exists id :: id in later && id !in read && forall next :: from <= next ==> id !in Page(later, next)
  }

  lemma OnNoLaterPage(listing: seq<nat>, from: nat, r: nat)
    requires Ascending(listing) && r < |listing|
    ensures (forall next :: from <= next ==> listing[r] !in Page(listing, next)) <==> r < from
  {
    if r < from {
      forall next | from <= next ensures listing[r] !in Page(listing, next) {
        OnPageIffRank(listing, next, r);
      }
    } else {
      OnPageIffRank(listing, r, r);
    }
  }

  /** Positions are kept as long as nothing before them disappears. */
  lemma SameRank(before: seq<nat>, after: seq<nat>, r: nat)
    requires Ascending(before) && Ascending(after) && r < |before|
    requires forall i :: 0 <= i <= r ==> before[i] in after
    requires forall id, prior :: id in after && id !in before && prior in before ==> prior < id
    ensures r < |after| && after[r] == before[r]
  {
    assert before[r] in after;
    var r' :| 0 <= r' < |after| && after[r'] == before[r];
    RankIsCount(before, r);
    RankIsCount(after, r');
    forall id ensures id in after && id < before[r] <==> id in before && id < before[r] {
      assert before[r] in before;
      if id in before && id < before[r] {
        var i :| 0 <= i < |before| && before[i] == id;
        assert i <= r;
      }
    }
    assert (set id | id in after && id < before[r]) == (set id | id in before && id < before[r]);
  }

  /** If a row read is gone, the first `from` ranks are not all taken by rows read. */
  lemma SomeUnread(before: seq<nat>, after: seq<nat>, from: nat, gone: nat) returns (r: nat)
    requires Ascending(before) && Ascending(after) && from <= |before| && from <= |after|
    requires gone in before[..from] && gone !in after
    ensures r < from && after[r] !in before[..from]
  {
    if forall k :: 0 <= k < from ==> after[k] in before[..from] {
      var front := set k | 0 <= k < from :: after[k];
      var read := set k | 0 <= k < from :: before[k];
      FrontCardinality(after, from);
      FrontCardinality(before, from);
      assert gone in read by {
        var k :| 0 <= k < from && before[..from][k] == gone;
        assert before[k] == gone;
      }
      forall id | id in front ensures id in read - {gone} {
        var k :| 0 <= k < from && after[k] == id;
        var j :| 0 <= j < from && before[..from][j] == id;
        assert before[j] == id;
      }
      SubsetSize(front, read - {gone});
      assert false;
    }
    r :| 0 <= r < from && after[r] !in before[..from];
  }

  /**
   The rows before rank `from` have been read. From the table as it is when the
   next page is requested, a live row is lost to this and every later request
   if and only if some row read is gone and some unread row is live.
   */
  lemma ARowIsHiddenIff(companies: set<string>, window: Option<string>, last: State, s: State, from: nat)
    requires EnvStep(companies, last, s) && last.rows.Keys <= last.issued
    requires from <= |Listing(window, last.rows)|
    ensures var read, later := Listing(window, last.rows)[..from], Listing(window, s.rows);
            HidesARow(read, later, from) <==>
                (exists id :: id in read && id !in s.rows) && (exists id :: id in later && id !in read)
  {
    var listing, later := Listing(window, last.rows), Listing(window, s.rows);
    ListingsAlign(companies, window, last, s);
    hide Listing, EnvStep;
    if HidesARow(listing[..from], later, from) {
      HiddenMeansGone(listing, later, s.rows.Keys, from);
    }
    if (exists id :: id in listing[..from] && id !in s.rows) && (exists id :: id in later && id !in listing[..from]) {
      GoneHides(listing, later, s.rows.Keys, from);
    }
  }

  /** Of the rows listed before some stay listed; the others come after them all. */
  ghost predicate Aligned(before: seq<nat>, after: seq<nat>, live: set<nat>) {
    && Ascending(before) && Ascending(after)
    && (forall id :: id in before ==> (id in after <==> id in live))
    && (forall id :: id in after ==> id in live)
    && (forall id, prior :: id in after && id !in before && prior in before ==> prior < id)
  }

  lemma HiddenMeansGone(before: seq<nat>, after: seq<nat>, live: set<nat>, from: nat)
    requires Aligned(before, after, live) && from <= |before| && HidesARow(before[..from], after, from)
    ensures exists id :: id in before[..from] && id !in live
    ensures exists id :: id in after && id !in before[..from]
  {
    hide Page;
    var read := before[..from];
    var id :| id in after && id !in read && forall next :: from <= next ==> id !in Page(after, next);
    var r :| 0 <= r < |after| && after[r] == id;
    OnNoLaterPage(after, from, r);
    if forall k :: k in read ==> k in live {
      forall i | 0 <= i <= r ensures before[i] in after {
        assert read[i] in read && before[i] in before;
      }
      SameRank(before, after, r);
      assert false;
    }
  }

  lemma GoneHides(before: seq<nat>, after: seq<nat>, live: set<nat>, from: nat)
    requires Aligned(before, after, live) && from <= |before|
    requires exists id :: id in before[..from] && id !in live
    requires exists id :: id in after && id !in before[..from]
    ensures HidesARow(before[..from], after, from)
  {
    hide Page;
    var gone :| gone in before[..from] && gone !in live;
    var id :| id in after && id !in before[..from];
    var r :| 0 <= r < |after| && after[r] == id;
    if from <= r {
      r := SomeUnread(before, after, from, gone);
    }
    OnNoLaterPage(after, from, r);
    assert after[r] in after;
  }

  /** What one turn of the other actors does to a listing. */
  lemma ListingsAlign(companies: set<string>, window: Option<string>, last: State, s: State)
    requires EnvStep(companies, last, s) && last.rows.Keys <= last.issued
    ensures Aligned(Listing(window, last.rows), Listing(window, s.rows), s.rows.Keys)
  {
    SortedIdsSpec(ListedIds(window, last.rows));
    SortedIdsSpec(ListedIds(window, s.rows));
    forall id | id in Listing(window, last.rows) && id in s.rows ensures s.rows[id] == last.rows[id] {
      assert id in last.issued;
    }
  }

  // ----- the fetch loop -----

  /** The tables the requests of a run were answered from. */
  ghost function Tables(start: State, trace: seq<Entry>, requests: seq<nat>): (tables: seq<map<nat, Row>>)
    requires forall n :: n in requests ==> n <= |trace|
    ensures |tables| == |requests|
  {
    seq(|requests|, i requires 0 <= i < |requests|
        && requests[i] in requests => Reached(start, trace[..requests[i]]).rows)
  }

  lemma TablesExtend(start: State, trace: seq<Entry>, requests: seq<nat>, longer: seq<Entry>)
    requires trace <= longer && forall n :: n in requests ==> n <= |trace|
    ensures Tables(start, longer, requests) == Tables(start, trace, requests)
    ensures Tables(start, longer, requests + [|longer|])
            == Tables(start, trace, requests) + [Reached(start, longer).rows]
  {
    assert longer[..|longer|] == longer;
    forall i | 0 <= i < |requests| ensures requests[i] in requests && longer[..requests[i]] == trace[..requests[i]] {
      assert requests[i] in requests;
    }
  }

  /** The page at rank `from` of a table, row by row. */
  function PageOf(window: Option<string>, rows: map<nat, Row>, from: nat): seq<Doc> {
    PageIsListed(window, rows, from);
    DocsAt(rows, Page(Listing(window, rows), from))
  }

  lemma PageIsListed(window: Option<string>, rows: map<nat, Row>, from: nat)
    ensures forall id :: id in Page(Listing(window, rows), from) ==> id in rows
  {
    SortedIdsSpec(ListedIds(window, rows));
    assert forall id :: id in Page(Listing(window, rows), from) ==> id in Listing(window, rows);
  }

  /** What is read over a series of tables, one page each. */
  ghost function Read(window: Option<string>, tables: seq<map<nat, Row>>): seq<Doc> {
    if tables == [] then []
    else
      var n := |tables| - 1;
      Read(window, tables[..n]) + PageOf(window, tables[n], n * PAGE_SIZE)
  }

  /** No row of a page already read is gone when a later page is requested. */
  ghost predicate ReadRowsStay(window: Option<string>, tables: seq<map<nat, Row>>) {
    forall n, d :: 0 <= n < |tables| && d in Read(window, tables[..n]) ==> d.id in tables[n]
  }

  lemma StayedSoFar(window: Option<string>, tables: seq<map<nat, Row>>, rows: map<nat, Row>)
    requires ReadRowsStay(window, tables + [rows])
    ensures ReadRowsStay(window, tables)
    ensures forall d :: d in Read(window, tables) ==> d.id in rows
  {
    var more := tables + [rows];
    assert more[..|tables|] == tables && more[|tables|] == rows;
    forall n, d | 0 <= n < |tables| && d in Read(window, tables[..n]) ensures d.id in tables[n] {
      assert more[..n] == tables[..n] && more[n] == tables[n];
    }
  }

  function DocsAt(rows: map<nat, Row>, ids: seq<nat>): (docs: seq<Doc>)
    requires forall id :: id in ids ==> id in rows
    ensures |docs| == |ids|
    ensures forall i :: 0 <= i < |ids| ==> docs[i] == Doc(ids[i], rows[ids[i]])
  {
    seq(|ids|, i requires 0 <= i < |ids| => Doc(ids[i], rows[ids[i]]))
  }

  /** Every row with a pointer in the window was fetched. */
  ghost predicate Complete(window: Option<string>, docs: seq<Doc>, s: State) {
    forall id :: id in s.rows && s.rows[id].path.Some? && InWindow(window, s.rows[id]) ==> Doc(id, s.rows[id]) in docs
  }

  method FetchPage(store: Store, window: Option<string>, from: nat) returns (reply: Reply<seq<Doc>>)
    requires store.Valid()
    modifies store
    ensures store.Valid() && old(store.trace) <= store.trace
    ensures EnvStep(store.scope.companies, old(store.Now()), store.Now())
    ensures store.undisturbed ==> old(store.undisturbed) && store.Now() == old(store.Now())
    ensures store.faultless ==> old(store.faultless) && reply.Ok?
    ensures store.writes == old(store.writes)
    ensures reply.Ok? ==> |reply.value| <= PAGE_SIZE && reply.value == PageOf(window, store.rows, from)
  {
    store.Interfere();
    var faulty: bool := *;
    var throws: bool := *;
    store.faultless := store.faultless && !faulty;
    store.Record(store.Now(), Call(faulty));
    if faulty {
      reply := if throws then Threw else Err;
    } else {
      reply := Ok(PageOf(window, store.rows, from));
    }
  }

  /** The fetched ids are in table order, and each row is still as fetched, or gone. */
  ghost predicate FetchedOk(window: Option<string>, docs: seq<Doc>, s: State) {
    && (forall i, j :: 0 <= i < j < |docs| ==> docs[i].id < docs[j].id)
    && (forall d :: d in docs ==> Known(s, d) && d.row.path.Some? && InWindow(window, d.row))
  }

  /** Everything fetched so far lies before rank `from` of the listing it was last read from. */
  ghost predicate ReadUpTo(docs: seq<Doc>, listing: seq<nat>, from: nat) {
    if from == 0 then docs == []
    else from <= |listing| && forall d :: d in docs ==> d.id <= listing[from - 1]
  }

  lemma PageIsLater(companies: set<string>, window: Option<string>, docs: seq<Doc>, last: State, s: State, from: nat,
                    d: Doc, k: nat)
    requires ReadUpTo(docs, Listing(window, last.rows), from)
    requires last.rows.Keys <= last.issued && EnvStep(companies, last, s)
    requires d in docs && k < |Page(Listing(window, s.rows), from)|
    ensures d.id < Page(Listing(window, s.rows), from)[k]
  {
    var listing, later := Listing(window, last.rows), Listing(window, s.rows);
    SortedIdsSpec(ListedIds(window, last.rows));
    SortedIdsSpec(ListedIds(window, s.rows));
    forall id, prior | id in later && id !in listing && prior in listing ensures prior < id {
      assert id in s.rows && prior in last.issued;
    }
    LaterPageIsLater(listing, later, from, from - 1, from + k);
  }

  lemma PageFacts(window: Option<string>, s: State, from: nat)
    ensures var ids := Page(Listing(window, s.rows), from);
            && Ascending(ids)
            && (forall id :: id in ids ==> id in s.rows && InWindow(window, s.rows[id]) && s.rows[id].path.Some?)
            && (|ids| == PAGE_SIZE ==>
                  && from + PAGE_SIZE <= |Listing(window, s.rows)|
                  && forall id :: id in ids ==> id <= Listing(window, s.rows)[from + PAGE_SIZE - 1])
  {
    var listing := Listing(window, s.rows);
    SortedIdsSpec(ListedIds(window, s.rows));
    var ids := Page(listing, from);
    var lo := Min(from, |listing|);
    assert forall k :: 0 <= k < |ids| ==> ids[k] == listing[lo + k];
    forall id | id in ids ensures id in listing {
      var k :| 0 <= k < |ids| && ids[k] == id;
      assert listing[lo + k] == id;
    }
  }

  lemma PageExtends(companies: set<string>, window: Option<string>, docs: seq<Doc>, last: State, s: State, from: nat)
    requires FetchedOk(window, docs, last) && ReadUpTo(docs, Listing(window, last.rows), from)
    requires last.rows.Keys <= last.issued && s.rows.Keys <= s.issued && EnvStep(companies, last, s)
    ensures var page := PageOf(window, s.rows, from);
            && FetchedOk(window, docs + page, s)
            && (|page| == PAGE_SIZE ==> ReadUpTo(docs + page, Listing(window, s.rows), from + PAGE_SIZE))
  {
    hide Listing, Page, ListedIds, SortedIds;
    var ids := Page(Listing(window, s.rows), from);
    PageFacts(window, s, from);
    var page := PageOf(window, s.rows, from);
    forall d, k | d in docs && 0 <= k < |ids| ensures d.id < ids[k] {
      PageIsLater(companies, window, docs, last, s, from, d, k);
    }
    forall i, j | 0 <= i < j < |docs + page|
      ensures (docs + page)[i].id < (docs + page)[j].id
    {
      if i < |docs| <= j {
        assert docs[i] in docs;
        assert docs[i].id < ids[j - |docs|];
      }
    }
    forall d | d in page ensures d.id in ids && d == Doc(d.id, s.rows[d.id]) {
      var k :| 0 <= k < |page| && page[k] == d;
    }
    if |ids| == PAGE_SIZE {
      forall d | d in docs ensures d.id <= Listing(window, s.rows)[from + PAGE_SIZE - 1] {
        assert d.id < ids[0] && ids[0] in ids;
      }
    }
  }

  /** The first `from` entries of the listing have been fetched. */
  ghost predicate AllRead(docs: seq<Doc>, listing: seq<nat>, from: nat) {
    from <= |listing| && forall r :: 0 <= r < from ==> HasId(docs, listing[r])
  }

  ghost predicate HasId(docs: seq<Doc>, id: nat) {
    exists d :: d in docs && d.id == id
  }

  lemma RanksKept(companies: set<string>, window: Option<string>, last: State, s: State, from: nat)
    requires EnvStep(companies, last, s) && last.rows.Keys <= last.issued && from <= |Listing(window, last.rows)|
    requires forall r :: 0 <= r < from ==> Listing(window, last.rows)[r] in s.rows
    ensures var before, listing := Listing(window, last.rows), Listing(window, s.rows);
            from <= |listing| && forall r :: 0 <= r < from ==> listing[r] == before[r]
  {
    ListingsAlign(companies, window, last, s);
    hide EnvStep, Listing;
    var before, listing := Listing(window, last.rows), Listing(window, s.rows);
    forall r | 0 <= r < from ensures r < |listing| && listing[r] == before[r] {
      assert forall i :: 0 <= i < from ==> before[i] in before;
      SameRank(before, listing, r);
    }
    if from > 0 { SameRank(before, listing, from - 1); }
  }

  /** While no row read is gone, the ranks read stay where they are and the page continues them. */
  lemma PageCompletes(companies: set<string>, window: Option<string>, docs: seq<Doc>, last: State, s: State, from: nat)
    requires AllRead(docs, Listing(window, last.rows), from)
    requires EnvStep(companies, last, s) && last.rows.Keys <= last.issued
    requires forall r :: 0 <= r < from ==> Listing(window, last.rows)[r] in s.rows
    ensures var listing := Listing(window, s.rows);
            var page := PageOf(window, s.rows, from);
            if |page| == PAGE_SIZE then AllRead(docs + page, listing, from + PAGE_SIZE)
            else AllRead(docs + page, listing, |listing|)
  {
    hide EnvStep, SortedIds, Listing, ListedIds;
    var before, listing := Listing(window, last.rows), Listing(window, s.rows);
    RanksKept(companies, window, last, s, from);
    PageIsListed(window, s.rows, from);
    var ids := Page(listing, from);
    var page := PageOf(window, s.rows, from);
    assert ids == listing[from..Min(from + PAGE_SIZE, |listing|)];
    assert from + |ids| == if |ids| == PAGE_SIZE then from + PAGE_SIZE else |listing|;
    forall r | 0 <= r < from + |ids|
      ensures HasId(docs + page, listing[r])
    {
      if r < from {
        assert HasId(docs, before[r]);
        var d :| d in docs && d.id == listing[r];
        assert d in docs + page;
      } else {
        assert page[r - from] in docs + page;
        assert ids[r - from] == listing[r];
      }
    }
    assert AllRead(docs + page, listing, from + |ids|);
  }

  lemma ReadStays(docs: seq<Doc>, listing: seq<nat>, from: nat, rows: map<nat, Row>)
    requires AllRead(docs, listing, from) && forall d :: d in docs ==> d.id in rows
    ensures forall r :: 0 <= r < from ==> listing[r] in rows
  {
    forall r | 0 <= r < from ensures listing[r] in rows {
      assert HasId(docs, listing[r]);
    }
  }

  lemma AllReadIsComplete(window: Option<string>, docs: seq<Doc>, s: State)
    requires FetchedOk(window, docs, s) && AllRead(docs, Listing(window, s.rows), |Listing(window, s.rows)|)
    ensures Complete(window, docs, s)
  {
    var listing := Listing(window, s.rows);
    SortedIdsSpec(ListedIds(window, s.rows));
    forall id | id in s.rows && s.rows[id].path.Some? && InWindow(window, s.rows[id])
      ensures Doc(id, s.rows[id]) in docs
    {
      assert id in listing;
      var r :| 0 <= r < |listing| && listing[r] == id;
      var d :| d in docs && d.id == listing[r];
    }
  }

  lemma PageLaidOut(scope: Scope, start: State, trace: seq<Entry>, docs: seq<Doc>, window: Option<string>, from: nat)
    requires Layout(scope.companies, start) && Trace(scope, start, trace)
    requires LaidOut(scope.companies, docs)
    ensures LaidOut(scope.companies, docs + PageOf(window, Reached(start, trace).rows, from))
  {
    EveryReachableStateKeepsLayout(scope, start, trace);
    PageIsListed(window, Reached(start, trace).rows, from);
  }

  /**
   Read the whole table, page by page. `None` is a failed request, or a process
   killed after `pages` requests. What comes back is what the tables held that
   the requests met: in table order, without duplicates, and complete unless a
   row already read was gone at a later request.
   */
  method FetchAllDocuments(store: Store, window: Option<string>, pages: nat)
      returns (fetched: Option<seq<Doc>>, ghost requests: seq<nat>)
    requires store.Valid() && store.trace == []
    modifies store
    ensures store.Valid() && store.writes == old(store.writes)
    ensures EnvStep(store.scope.companies, old(store.Now()), store.Now())
    ensures store.faultless ==> old(store.faultless)
    ensures store.undisturbed ==> old(store.undisturbed) && store.Now() == old(store.Now())
    ensures forall n :: n in requests ==> n <= |store.trace|
    ensures fetched.Some? ==>
              && fetched.value == Read(window, Tables(store.start, store.trace, requests))
              && requests != [] && requests[|requests| - 1] == |store.trace|
    ensures fetched.Some? ==> FetchedOk(window, fetched.value, store.Now())
    ensures fetched.Some? && Layout(store.scope.companies, store.start) ==>
              LaidOut(store.scope.companies, fetched.value)
    ensures fetched.Some? && (store.undisturbed || ReadRowsStay(window, Tables(store.start, store.trace, requests))) ==>
              Complete(window, fetched.value, store.Now())
    // as many requests as the table has pages are enough
    ensures store.faultless && pages * PAGE_SIZE > |Listing(window, store.rows)| ==> fetched.Some?
  {
    hide Trace, Quiet, Step, Licensed, Listing, Page, PageOf, ListedIds, UploaderScoped, LayoutOk, Layout, Read,
         Tables, ReadRowsStay;
    ghost var scope, start := store.scope, store.start;
    var docs: seq<Doc> := [];
    var from: nat := 0;
    fetched, requests := None, [];
    NothingReadYet(window, start, store.trace);
    for i := 0 to pages
      invariant store.Valid() && store.writes == old(store.writes)
      invariant EnvStep(scope.companies, old(store.Now()), store.Now())
      invariant store.faultless ==> old(store.faultless)
      invariant store.undisturbed ==> old(store.undisturbed) && store.Now() == old(store.Now())
      invariant from == i * PAGE_SIZE == |requests| * PAGE_SIZE
      invariant forall n :: n in requests ==> n <= |store.trace|
      invariant docs == Read(window, Tables(start, store.trace, requests))
      invariant FetchedOk(window, docs, store.Now()) && ReadUpTo(docs, Listing(window, store.rows), from)
      invariant Layout(scope.companies, start) ==> LaidOut(scope.companies, docs)
      invariant store.undisturbed || ReadRowsStay(window, Tables(start, store.trace, requests)) ==>
                  AllRead(docs, Listing(window, store.rows), from)
    {
      ghost var last, trace := store.Now(), store.trace;
      var reply := FetchPage(store, window, from);
      if !reply.Ok? {
        return;
      }
      ghost var tables := Tables(start, trace, requests);
      TablesExtend(start, trace, requests, store.trace);
      OneMorePage(window, tables, store.rows);
      PageExtends(scope.companies, window, docs, last, store.Now(), from);
      RowsByOthersTransitive(scope.companies, old(store.Now()), last, store.Now(), {});
      if Layout(scope.companies, start) {
        PageLaidOut(scope, start, store.trace, docs, window, from);
      }
      if store.undisturbed || ReadRowsStay(window, tables + [store.rows]) {
        StayComplete(scope.companies, window, tables, docs, last, store.Now(), from, store.undisturbed);
      }
      requests := requests + [|store.trace|];
      docs := docs + reply.value;
      if |reply.value| < PAGE_SIZE {
        if store.undisturbed || ReadRowsStay(window, tables + [store.rows]) {
          AllReadIsComplete(window, docs, store.Now());
        }
        return Some(docs), requests;
      }
      from := from + PAGE_SIZE;
    }
  }

  lemma NothingReadYet(window: Option<string>, start: State, trace: seq<Entry>)
    ensures Read(window, Tables(start, trace, [])) == []
  {
  }

  lemma OneMorePage(window: Option<string>, tables: seq<map<nat, Row>>, rows: map<nat, Row>)
    ensures Read(window, tables + [rows]) == Read(window, tables) + PageOf(window, rows, |tables| * PAGE_SIZE)
  {
    assert (tables + [rows])[..|tables|] == tables;
  }

  lemma StayComplete(companies: set<string>, window: Option<string>, tables: seq<map<nat, Row>>, docs: seq<Doc>,
                     last: State, s: State, from: nat, undisturbed: bool)
    requires docs == Read(window, tables) && EnvStep(companies, last, s) && last.rows.Keys <= last.issued
    requires undisturbed || ReadRowsStay(window, tables) ==> AllRead(docs, Listing(window, last.rows), from)
    requires undisturbed ==> s == last
    requires undisturbed || ReadRowsStay(window, tables + [s.rows])
    ensures var listing := Listing(window, s.rows);
            var page := PageOf(window, s.rows, from);
            if |page| == PAGE_SIZE then AllRead(docs + page, listing, from + PAGE_SIZE)
            else AllRead(docs + page, listing, |listing|)
  {
    if undisturbed {
      SortedIdsSpec(ListedIds(window, last.rows));
      forall r | 0 <= r < from ensures Listing(window, last.rows)[r] in s.rows {
        assert Listing(window, last.rows)[r] in Listing(window, last.rows);
      }
    } else {
      StayedSoFar(window, tables, s.rows);
      ReadStays(docs, Listing(window, last.rows), from, s.rows);
    }
    PageCompletes(companies, window, docs, last, s, from);
  }
}
