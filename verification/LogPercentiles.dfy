/** Nearest-rank percentiles, and the grouping of log records they are taken over. */
module LogPercentiles {
  import opened Prelude
  import StableSort

  // ----- sorting numbers -----

  const Itself := (x: real) => x

  ghost predicate Ascending(s: seq<real>) {
    StableSort.Ascending(s, Itself)
  }

  /** `sort((a, b) => a - b)` on finite numbers. */
  function Sort(s: seq<real>): seq<real> {
    StableSort.Sort(s, Itself)
  }

  lemma SortSorts(s: seq<real>)
    ensures Ascending(Sort(s)) && multiset(Sort(s)) == multiset(s) && |Sort(s)| == |s|
  {
    StableSort.SortSorts(s, Itself);
    assert |multiset(Sort(s))| == |multiset(s)|;
  }

  // ----- percentile -----

  function Ceil(x: real): int {
    -((-x).Floor)
  }

  /** The rank the code uses: within 1 and the length. */
  function Rank(n: nat, p: real): (rank: nat)
    requires n > 0
    ensures 1 <= rank <= n
  {
    var rank := Ceil(p / 100.0 * n as real);
    if rank < 1 then 1 else if rank > n then n else rank
  }

  /** `None` is NaN. */
  function Percentile(sorted: seq<real>, p: real): Option<real> {
    if sorted == [] then None else Some(sorted[Rank(|sorted|, p) - 1])
  }

  ghost function CountBelow(s: seq<real>, v: real): nat {
    if s == [] then 0 else CountBelow(s[..|s| - 1], v) + (if s[|s| - 1] < v then 1 else 0)
  }

  ghost function CountUpTo(s: seq<real>, v: real): nat {
    if s == [] then 0 else CountUpTo(s[..|s| - 1], v) + (if s[|s| - 1] <= v then 1 else 0)
  }

  lemma {:induction false} CountsAt(s: seq<real>, k: nat, n: nat)
    requires Ascending(s) && k < |s| && n <= |s|
    ensures CountBelow(s[..n], s[k]) <= k
    ensures CountUpTo(s[..n], s[k]) >= (if n <= k + 1 then n else k + 1)
  {
    if n > 0 {
      CountsAt(s, k, n - 1);
      assert s[..n][..n - 1] == s[..n - 1];
      if n - 1 < k {
        CountBelowIsSmall(s[..n], s[k]);
      }
    }
  }

  lemma {:induction false} CountBelowIsSmall(s: seq<real>, v: real)
    ensures CountBelow(s, v) <= |s|
  {
    if s != [] {
      CountBelowIsSmall(s[..|s| - 1], v);
    }
  }

  /** An element with fewer than rank values strictly below it, and at least rank at or below it. */
  lemma PercentileIsNearestRank(sorted: seq<real>, p: real)
    requires Ascending(sorted) && sorted != []
    ensures var v, rank := Percentile(sorted, p), Rank(|sorted|, p);
            && v.Some? && v.value in sorted
            && CountBelow(sorted, v.value) < rank <= CountUpTo(sorted, v.value)
  {
    var rank := Rank(|sorted|, p);
    assert sorted[..|sorted|] == sorted;
    CountsAt(sorted, rank - 1, |sorted|);
  }

  lemma RankIsMonotone(n: nat, p: real, q: real)
    requires n > 0 && p <= q
    ensures Rank(n, p) <= Rank(n, q)
  {
    Scaled(p / 100.0, q / 100.0, n as real);
    CeilIsMonotone(p / 100.0 * n as real, q / 100.0 * n as real);
  }

  lemma CeilIsMonotone(x: real, y: real)
    requires x <= y
    ensures Ceil(x) <= Ceil(y)
  {
  }

  lemma Scaled(a: real, b: real, n: real)
    requires a <= b && n >= 0.0
    ensures a * n <= b * n
  {
    assert (b - a) * n >= 0.0;
  }

  lemma PercentileIsMonotone(sorted: seq<real>, p: real, q: real)
    requires Ascending(sorted) && sorted != [] && p <= q
    ensures Percentile(sorted, p).value <= Percentile(sorted, q).value
  {
    RankIsMonotone(|sorted|, p, q);
  }

  // ----- records -----

  /** A finite number, null, or anything else by its text. */
  datatype Value = Finite(number: real, text: string) | Null | Other(text: string)

  type Record = map<string, Value>

  datatype Filter = Filter(key: string, value: string)

  /** `String(record[key])`. */
  function TextOf(record: Record, key: string): string {
    if key !in record then "undefined" else if record[key].Null? then "null" else record[key].text
  }

  predicate MatchesFilters(record: Record, filters: seq<Filter>) {
    forall i :: 0 <= i < |filters| ==> TextOf(record, filters[i].key) == filters[i].value
  }

  function JoinKeys(record: Record, groupBy: seq<string>): string {
    if groupBy == [] then ""
    else
      var last := groupBy[|groupBy| - 1];
      var text := if last !in record || record[last].Null? then "" else record[last].text;
      if |groupBy| == 1 then text else JoinKeys(record, groupBy[..|groupBy| - 1]) + " / " + text
  }

  function GroupKey(record: Record, groupBy: seq<string>): string {
    if groupBy == [] then "all" else JoinKeys(record, groupBy)
  }

  datatype Options = Options(fields: seq<string>, groupBy: seq<string>, filters: seq<Filter>, minCount: nat)

  /** The record passes the filters and falls into the group. */
  ghost predicate InGroup(record: Record, options: Options, group: string) {
    MatchesFilters(record, options.filters) && GroupKey(record, options.groupBy) == group
  }

  ghost function CountIn(records: seq<Record>, options: Options, group: string): nat {
    if records == [] then 0
    else CountIn(records[..|records| - 1], options, group)
         + (if InGroup(records[|records| - 1], options, group) then 1 else 0)
  }

  ghost function CountPassing(records: seq<Record>, options: Options): nat {
    if records == [] then 0
    else CountPassing(records[..|records| - 1], options)
         + (if MatchesFilters(records[|records| - 1], options.filters) then 1 else 0)
  }

  ghost function Finites(record: Record, f: string): seq<real> {
    if f in record && record[f].Finite? then [record[f].number] else []
  }

  ghost function Times(fields: seq<string>, f: string): nat {
    if fields == [] then 0 else Times(fields[..|fields| - 1], f) + (if fields[|fields| - 1] == f then 1 else 0)
  }

  ghost function Repeat(s: seq<real>, times: nat): seq<real> {
    if times == 0 then [] else Repeat(s, times - 1) + s
  }

  /** What a record adds to the values of a field: its finite value, each time the field is named. */
  ghost function Pushes(record: Record, fields: seq<string>, f: string): seq<real> {
    Repeat(Finites(record, f), Times(fields, f))
  }

  /** The finite values of a field in a group, in the order of the records. */
  ghost function ValuesIn(records: seq<Record>, options: Options, group: string, f: string): seq<real> {
    if records == [] then []
    else
      var last := records[|records| - 1];
      ValuesIn(records[..|records| - 1], options, group, f)
      + (if InGroup(last, options, group) then Pushes(last, options.fields, f) else [])
  }

  datatype FieldStats = FieldStats(p50: Option<real>, p90: Option<real>, p99: Option<real>, max: Option<real>)

  function StatsOf(sorted: seq<real>): FieldStats {
    FieldStats(Percentile(sorted, 50.0), Percentile(sorted, 90.0), Percentile(sorted, 99.0),
               if sorted == [] then None else Some(sorted[|sorted| - 1]))
  }

  lemma StatsAreOrdered(sorted: seq<real>)
    requires Ascending(sorted) && sorted != []
    ensures var s := StatsOf(sorted); s.p50.value <= s.p90.value <= s.p99.value <= s.max.value
  {
    PercentileIsMonotone(sorted, 50.0, 90.0);
    PercentileIsMonotone(sorted, 90.0, 99.0);
  }

  ghost function AtMost(values: seq<real>, v: real): set<nat> {
    set i: nat | i < |values| && values[i] <= v
  }

  ghost function Below(values: seq<real>, v: real): set<nat> {
    set i: nat | i < |values| && values[i] < v
  }

  lemma CountsAreSizes(values: seq<real>, v: real)
    ensures CountUpTo(values, v) == |AtMost(values, v)| && CountBelow(values, v) == |Below(values, v)|
  {
    AtMostIsCounted(values, v);
    BelowIsCounted(values, v);
  }

  lemma {:induction false} AtMostIsCounted(values: seq<real>, v: real)
    ensures CountUpTo(values, v) == |AtMost(values, v)|
  {
    if values == [] {
      assert AtMost(values, v) == {};
    } else {
      var front, last := values[..|values| - 1], |values| - 1;
      AtMostIsCounted(front, v);
      assert AtMost(values, v) == AtMost(front, v) + if values[last] <= v then {last} else {};
    }
  }

  lemma {:induction false} BelowIsCounted(values: seq<real>, v: real)
    ensures CountBelow(values, v) == |Below(values, v)|
  {
    if values == [] {
      assert Below(values, v) == {};
    } else {
      var front, last := values[..|values| - 1], |values| - 1;
      BelowIsCounted(front, v);
      assert Below(values, v) == Below(front, v) + if values[last] < v then {last} else {};
    }
  }

  /** One of the values: at least `percent` of a hundred are at or below it, and fewer are below. */
  ghost predicate IsShare(values: seq<real>, percent: nat, v: real) {
    v in values && 100 * |AtMost(values, v)| >= percent * |values| > 100 * |Below(values, v)|
  }

  lemma RankIsShare(n: nat, percent: nat)
    requires n > 0 && 0 < percent <= 100
    ensures 100 * (Rank(n, percent as real) - 1) < percent * n <= 100 * Rank(n, percent as real)
  {
    var x := percent as real / 100.0 * n as real;
    ShareOf(n, percent);
    assert (Ceil(x) - 1) as real < x <= Ceil(x) as real;
    assert 100.0 * x == (percent * n) as real && percent * n <= 100 * n;
  }

  lemma ShareOf(n: nat, percent: nat)
    requires percent <= 100
    ensures 100.0 * (percent as real / 100.0 * n as real) == (percent * n) as real && percent * n <= 100 * n
  {
  }

  lemma PercentileIsShare(values: seq<real>, percent: nat)
    requires values != [] && 0 < percent <= 100
    ensures Percentile(Sort(values), percent as real).Some?
    ensures IsShare(values, percent, Percentile(Sort(values), percent as real).value)
  {
    SortSorts(values);
    var sorted := Sort(values);
    hide Sort, Rank, Ascending;
    PercentileIsNearestRank(sorted, percent as real);
    var v := Percentile(sorted, percent as real).value;
    CountsOfPermutation(sorted, values, v);
    CountsAreSizes(values, v);
    RankIsShare(|values|, percent);
    assert v in multiset(sorted);
  }

  /** The four statistics of a group, by the shares of the values they are named for. */
  lemma StatsAreShares(values: seq<real>)
    requires values != []
    ensures var s := StatsOf(Sort(values));
            && s.p50.Some? && IsShare(values, 50, s.p50.value)
            && s.p90.Some? && IsShare(values, 90, s.p90.value)
            && s.p99.Some? && IsShare(values, 99, s.p99.value)
            && s.max.Some? && s.max.value in values && forall v :: v in values ==> v <= s.max.value
  {
    PercentileIsShare(values, 50);
    PercentileIsShare(values, 90);
    PercentileIsShare(values, 99);
    SortSorts(values);
    var sorted := Sort(values);
    assert sorted[|sorted| - 1] in multiset(sorted);
    forall v | v in values ensures v <= sorted[|sorted| - 1] {
      assert v in multiset(sorted);
      var i :| 0 <= i < |sorted| && sorted[i] == v;
    }
  }

  datatype Bucket = Bucket(count: nat, values: map<string, seq<real>>)

  datatype GroupRow = GroupRow(group: string, count: nat, fields: map<string, FieldStats>)

  // ----- summarize -----

  ghost predicate BucketIs(bucket: Bucket, records: seq<Record>, options: Options, group: string) {
    && bucket.count == CountIn(records, options, group) > 0
    && (forall f :: f in bucket.values <==> f in options.fields)
    && (forall f :: f in bucket.values ==> bucket.values[f] == ValuesIn(records, options, group, f))
  }

  /** The map of buckets, and its insertion order, after some records. */
  ghost predicate Gathered(buckets: map<string, Bucket>, order: seq<string>, records: seq<Record>, options: Options) {
    && Distinct(order) && (forall group :: group in order <==> group in buckets)
    && (forall group :: group in buckets ==> BucketIs(buckets[group], records, options, group))
    && (forall group :: group !in buckets ==> CountIn(records, options, group) == 0)
  }

  lemma {:induction false} NothingInEmptyGroup(records: seq<Record>, options: Options, group: string, f: string)
    requires CountIn(records, options, group) == 0
    ensures ValuesIn(records, options, group, f) == []
  {
    if records != [] {
      NothingInEmptyGroup(records[..|records| - 1], options, group, f);
    }
  }

  /** Push the record's finite values onto its bucket. */
  method Push(bucket: Bucket, record: Record, fields: seq<string>) returns (pushed: Bucket)
    requires forall f :: f in bucket.values <==> f in fields
    ensures pushed.count == bucket.count + 1 && pushed.values.Keys == bucket.values.Keys
    ensures forall f :: f in bucket.values ==>
              pushed.values[f] == bucket.values[f] + Pushes(record, fields, f)
  {
    hide Pushes;
    pushed := bucket.(count := bucket.count + 1);
    forall f { NothingPushed(record, f); }
    for i := 0 to |fields|
      invariant pushed.count == bucket.count + 1 && pushed.values.Keys == bucket.values.Keys
      invariant forall f :: f in bucket.values ==>
                  pushed.values[f] == bucket.values[f] + Pushes(record, fields[..i], f)
    {
      var f := fields[i];
      forall g { OneMoreField(record, fields, i, g); }
      if f in record && record[f].Finite? {
        pushed := pushed.(values := pushed.values[f := pushed.values[f] + [record[f].number]]);
      }
    }
    assert fields[..|fields|] == fields;
  }

  lemma NothingPushed(record: Record, f: string)
    ensures Pushes(record, [], f) == []
  {
  }

  lemma OneMoreField(record: Record, fields: seq<string>, i: nat, f: string)
    requires i < |fields|
    ensures Pushes(record, fields[..i + 1], f)
            == Pushes(record, fields[..i], f) + (if f == fields[i] then Finites(record, f) else [])
  {
    assert fields[..i + 1][..i] == fields[..i];
  }

  method Gather(records: seq<Record>, options: Options) returns (buckets: map<string, Bucket>, order: seq<string>)
    ensures Gathered(buckets, order, records, options)
  {
    hide MatchesFilters, GroupKey, BucketIs, Gathered;
    buckets, order := map[], [];
    NothingGathered(options);
    for i := 0 to |records|
      invariant Gathered(buckets, order, records[..i], options)
    {
      var record := records[i];
      ghost var before := records[..i];
      assert records[..i + 1] == before + [record];
      if MatchesFilters(record, options.filters) {
        var group := GroupKey(record, options.groupBy);
        if group !in buckets {
          EmptyBucket(buckets, order, before, options, group);
          var bucket := Push(Bucket(0, map f | f in options.fields :: []), record, options.fields);
          NewBucket(buckets, order, before, record, options, bucket);
          buckets, order := buckets[group := bucket], order + [group];
        } else {
          BucketHasFields(buckets, order, before, options, group);
          var bucket := Push(buckets[group], record, options.fields);
          FullerBucket(buckets, order, before, record, options, bucket);
          buckets := buckets[group := bucket];
        }
      } else {
        SkippedRecord(buckets, order, before, record, options);
      }
    }
    assert records[..|records|] == records;
  }

  lemma NothingGathered(options: Options)
    ensures Gathered(map[], [], [], options)
  {
  }

  lemma BucketHasFields(buckets: map<string, Bucket>, order: seq<string>, records: seq<Record>, options: Options,
                        group: string)
    requires Gathered(buckets, order, records, options) && group in buckets
    ensures forall f :: f in buckets[group].values <==> f in options.fields
  {
  }

  lemma EmptyBucket(buckets: map<string, Bucket>, order: seq<string>, records: seq<Record>, options: Options,
                    group: string)
    requires Gathered(buckets, order, records, options) && group !in buckets
    ensures CountIn(records, options, group) == 0
    ensures forall f :: f in options.fields ==> ValuesIn(records, options, group, f) == []
  {
    forall f | f in options.fields ensures ValuesIn(records, options, group, f) == [] {
      NothingInEmptyGroup(records, options, group, f);
    }
  }

  /** One more record touches its own group and no other. */
  lemma OtherGroups(records: seq<Record>, record: Record, options: Options, group: string)
    ensures !InGroup(record, options, group) ==>
              && CountIn(records + [record], options, group) == CountIn(records, options, group)
              && forall f :: ValuesIn(records + [record], options, group, f) == ValuesIn(records, options, group, f)
    ensures InGroup(record, options, group) ==>
              && CountIn(records + [record], options, group) == CountIn(records, options, group) + 1
              && forall f ::
                   ValuesIn(records + [record], options, group, f)
                   == ValuesIn(records, options, group, f) + Pushes(record, options.fields, f)
  {
    assert (records + [record])[..|records|] == records;
  }

  lemma SkippedRecord(buckets: map<string, Bucket>, order: seq<string>, records: seq<Record>, record: Record,
                      options: Options)
    requires Gathered(buckets, order, records, options) && !MatchesFilters(record, options.filters)
    ensures Gathered(buckets, order, records + [record], options)
  {
    forall group { OtherGroups(records, record, options, group); }
  }

  lemma NewBucket(buckets: map<string, Bucket>, order: seq<string>, records: seq<Record>, record: Record,
                  options: Options,
                  bucket: Bucket)
    requires Gathered(buckets, order, records, options) && MatchesFilters(record, options.filters)
    requires GroupKey(record, options.groupBy) !in buckets
    requires bucket.count == 1 && forall f :: f in bucket.values <==> f in options.fields
    requires forall f :: f in bucket.values ==> bucket.values[f] == Pushes(record, options.fields, f)
    ensures var group := GroupKey(record, options.groupBy);
            Gathered(buckets[group := bucket], order + [group], records + [record], options)
  {
    var mine := GroupKey(record, options.groupBy);
    EmptyBucket(buckets, order, records, options, mine);
    forall group { OtherGroups(records, record, options, group); }
    assert BucketIs(bucket, records + [record], options, mine);
    forall group | group in buckets ensures BucketIs(buckets[group], records + [record], options, group) {
      assert BucketIs(buckets[group], records, options, group);
    }
  }

  lemma FullerBucket(buckets: map<string, Bucket>, order: seq<string>, records: seq<Record>, record: Record,
                     options: Options,
                     bucket: Bucket)
    requires Gathered(buckets, order, records, options) && MatchesFilters(record, options.filters)
    requires GroupKey(record, options.groupBy) in buckets
    requires var old_ := buckets[GroupKey(record, options.groupBy)];
             && bucket.count == old_.count + 1 && bucket.values.Keys == old_.values.Keys
             && forall f :: f in old_.values ==> bucket.values[f] == old_.values[f] + Pushes(record, options.fields, f)
    ensures Gathered(buckets[GroupKey(record, options.groupBy) := bucket], order, records + [record], options)
  {
    var mine := GroupKey(record, options.groupBy);
    forall group { OtherGroups(records, record, options, group); }
    assert BucketIs(buckets[mine], records, options, mine);
    assert BucketIs(bucket, records + [record], options, mine);
    forall group | group in buckets && group != mine
        ensures BucketIs(buckets[group], records + [record], options, group) {
      assert BucketIs(buckets[group], records, options, group);
    }
  }

  ghost predicate RowIs(row: GroupRow, records: seq<Record>, options: Options) {
    && row.count == CountIn(records, options, row.group) && row.count > 0 && row.count >= options.minCount
    && (forall f :: f in options.fields ==>
          f in row.fields && row.fields[f] == StatsOf(Sort(ValuesIn(records, options, row.group, f))))
  }

  ghost function TotalCount(rows: seq<GroupRow>): nat {
    if rows == [] then 0 else TotalCount(rows[..|rows| - 1]) + rows[|rows| - 1].count
  }

  ghost function CountOver(order: seq<string>, records: seq<Record>, options: Options): nat {
    if order == [] then 0
    else CountOver(order[..|order| - 1], records, options) + CountIn(records, options, order[|order| - 1])
  }

  lemma {:induction false} OneMoreRecord(order: seq<string>, records: seq<Record>, options: Options)
    requires Distinct(order) && records != []
    ensures var before, last := records[..|records| - 1], records[|records| - 1];
            CountOver(order, records, options) == CountOver(order, before, options)
            + (if MatchesFilters(last, options.filters) && GroupKey(last, options.groupBy) in order then 1 else 0)
  {
    if order != [] {
      OneMoreRecord(order[..|order| - 1], records, options);
      assert order == order[..|order| - 1] + [order[|order| - 1]];
    }
  }

  /** The groups partition the records that pass: every one is counted once. */
  lemma {:induction false} GroupsPartition(order: seq<string>, records: seq<Record>, options: Options)
    requires Distinct(order) && forall group :: group !in order ==> CountIn(records, options, group) == 0
    ensures CountOver(order, records, options) == CountPassing(records, options)
  {
    if records == [] {
      NoneCounted(order, options);
    } else {
      var before, last := records[..|records| - 1], records[|records| - 1];
      forall group | group !in order ensures CountIn(before, options, group) == 0 {
        assert CountIn(records, options, group) == 0;
      }
      GroupsPartition(order, before, options);
      OneMoreRecord(order, records, options);
      if MatchesFilters(last, options.filters) {
        var group := GroupKey(last, options.groupBy);
        assert CountIn(records, options, group) > 0;
      }
    }
  }

  lemma {:induction false} NoneCounted(order: seq<string>, options: Options)
    ensures CountOver(order, [], options) == 0
  {
    if order != [] {
      NoneCounted(order[..|order| - 1], options);
    }
  }

  method StatsOfBucket(bucket: Bucket, fields: seq<string>) returns (stats: map<string, FieldStats>)
    requires forall f :: f in fields ==> f in bucket.values
    ensures forall f :: f in fields ==> f in stats && stats[f] == StatsOf(Sort(bucket.values[f]))
  {
    stats := map[];
    for i := 0 to |fields|
      invariant forall j :: 0 <= j < i ==>
                  fields[j] in stats && stats[fields[j]] == StatsOf(Sort(bucket.values[fields[j]]))
    {
      stats := stats[fields[i] := StatsOf(Sort(bucket.values[fields[i]]))];
    }
  }

  ghost function Groups(rows: seq<GroupRow>): seq<string> {
    seq(|rows|, i requires 0 <= i < |rows| => rows[i].group)
  }

  /** One row for every group that is large enough; without a threshold they partition the records that pass. */
  method Summarize(records: seq<Record>, options: Options) returns (rows: seq<GroupRow>)
    ensures Distinct(Groups(rows))
    ensures forall row :: row in rows ==> RowIs(row, records, options)
    // each row, read off the records: its count and, for every field, the statistics of the finite values
    ensures forall row :: row in rows ==>
              && row.count == |Members(records, options, row.group)| && row.count >= options.minCount
              && forall f :: f in options.fields ==>
                   f in row.fields && StatsReadOff(row.fields[f], records, options, row.group, f)
    ensures forall group ::
              CountIn(records, options, group) > 0 && CountIn(records, options, group) >= options.minCount ==>
                group in Groups(rows)
    ensures options.minCount <= 1 ==> TotalCount(rows) == CountPassing(records, options)
  {
    hide CountIn, CountOver, CountPassing, StatsOf, Sort, ValuesIn, Gathered, BucketIs, RowIs;
    var buckets, order := Gather(records, options);
    GatheredMeans(buckets, order, records, options);
    rows := [];
    for i := 0 to |order|
      invariant forall row :: row in rows ==> RowIs(row, records, options) && row.group in order[..i]
      invariant Distinct(Groups(rows))
      invariant forall k :: 0 <= k < i && CountIn(records, options, order[k]) >= options.minCount ==>
                  order[k] in Groups(rows)
      invariant options.minCount <= 1 ==> TotalCount(rows) == CountOver(order[..i], records, options)
    {
      var group := order[i];
      var bucket := buckets[group];
      BucketMeans(bucket, records, options, group);
      assert order[..i + 1] == order[..i] + [group];
      CountOverGrows(order[..i], group, records, options);
      if bucket.count >= options.minCount {
        var stats := StatsOfBucket(bucket, options.fields);
        var row := GroupRow(group, bucket.count, stats);
        BucketMakesRow(bucket, records, options, row);
        NewGroup(rows, order, i);
        assert Groups(rows + [row]) == Groups(rows) + [group];
        rows := rows + [row];
      }
    }
    assert order[..|order|] == order;
    GroupsPartition(order, records, options);
    hide Members, StatsReadOff;
    forall row | row in rows
      ensures row.count == |Members(records, options, row.group)| && row.count >= options.minCount
      ensures forall f :: f in options.fields ==>
                f in row.fields && StatsReadOff(row.fields[f], records, options, row.group, f)
    {
      RowReadOff(row, records, options);
      RowIsLarge(row, records, options);
    }
  }

  lemma RowIsLarge(row: GroupRow, records: seq<Record>, options: Options)
    requires RowIs(row, records, options)
    ensures row.count >= options.minCount
  {
  }

  lemma GatheredMeans(buckets: map<string, Bucket>, order: seq<string>, records: seq<Record>, options: Options)
    requires Gathered(buckets, order, records, options)
    ensures Distinct(order) && (forall group :: group in order <==> group in buckets)
    ensures forall group :: group in buckets ==> BucketIs(buckets[group], records, options, group)
    ensures forall group :: group !in order ==> CountIn(records, options, group) == 0
    ensures CountOver([], records, options) == 0
  {
  }

  lemma BucketMeans(bucket: Bucket, records: seq<Record>, options: Options, group: string)
    requires BucketIs(bucket, records, options, group)
    ensures bucket.count == CountIn(records, options, group) > 0
    ensures forall f :: f in options.fields ==> f in bucket.values
  {
  }

  lemma BucketMakesRow(bucket: Bucket, records: seq<Record>, options: Options, row: GroupRow)
    requires BucketIs(bucket, records, options, row.group) && row.count == bucket.count >= options.minCount
    requires forall f :: f in options.fields ==>
               f in row.fields && f in bucket.values && row.fields[f] == StatsOf(Sort(bucket.values[f]))
    ensures RowIs(row, records, options)
  {
    hide CountIn, ValuesIn, StatsOf, Sort;
  }

  lemma CountOverGrows(order: seq<string>, group: string, records: seq<Record>, options: Options)
    ensures CountOver(order + [group], records, options)
            == CountOver(order, records, options) + CountIn(records, options, group)
  {
    assert (order + [group])[..|order|] == order;
  }

  lemma NewGroup(rows: seq<GroupRow>, order: seq<string>, i: nat)
    requires i < |order| && Distinct(order)
    requires forall row :: row in rows ==> row.group in order[..i]
    ensures order[i] !in Groups(rows)
  {
    forall k | 0 <= k < |rows| ensures Groups(rows)[k] != order[i] {
      assert rows[k] in rows;
    }
  }

  // ----- a field named more than once -----

  lemma {:induction false} CountsAdd(s: seq<real>, t: seq<real>, v: real)
    ensures CountBelow(s + t, v) == CountBelow(s, v) + CountBelow(t, v)
    ensures CountUpTo(s + t, v) == CountUpTo(s, v) + CountUpTo(t, v)
  {
    if t == [] {
      assert s + t == s;
    } else {
      CountsAdd(s, t[..|t| - 1], v);
      assert (s + t)[..|s + t| - 1] == s + t[..|t| - 1];
    }
  }

  lemma TakenOut(s: seq<real>, i: nat, v: real)
    requires i < |s|
    ensures multiset(s) == multiset(s[..i] + s[i + 1..]) + multiset{s[i]}
    ensures CountBelow(s, v) == CountBelow(s[..i] + s[i + 1..], v) + (if s[i] < v then 1 else 0)
    ensures CountUpTo(s, v) == CountUpTo(s[..i] + s[i + 1..], v) + (if s[i] <= v then 1 else 0)
  {
    var x := [s[i]];
    assert s == (s[..i] + x) + s[i + 1..];
    CountsAdd(s[..i] + x, s[i + 1..], v);
    CountsAdd(s[..i], x, v);
    CountsAdd(s[..i], s[i + 1..], v);
    assert x[..0] == [];
  }

  lemma {:induction false} CountsOfPermutation(s: seq<real>, t: seq<real>, v: real)
    requires multiset(s) == multiset(t)
    ensures CountBelow(s, v) == CountBelow(t, v) && CountUpTo(s, v) == CountUpTo(t, v)
  {
    if s == [] {
      assert |multiset(t)| == 0;
    } else {
      var front, x := s[..|s| - 1], s[|s| - 1];
      assert s == front + [x];
      assert x in multiset(t) && multiset(s) == multiset(front) + multiset{x};
      var i :| 0 <= i < |t| && t[i] == x;
      TakenOut(t, i, v);
      assert multiset(front) == multiset(s) - multiset{x} == multiset(t[..i] + t[i + 1..]);
      CountsOfPermutation(front, t[..i] + t[i + 1..], v);
    }
  }

  ghost function Product(times: nat, n: int): int {
    times * n
  }

  lemma ProductAdds(times: nat, n: int, m: int)
    ensures Product(times, n + m) == Product(times, n) + Product(times, m)
    ensures Product(times + 1, n) == Product(times, n) + n && Product(0, n) == 0
  {
  }

  lemma {:induction false} ProductGrows(times: nat, n: int, m: int)
    requires times > 0
    ensures n <= m ==> Product(times, n) <= Product(times, m)
    ensures n < m ==> Product(times, n) < Product(times, m)
    ensures Product(times, 0) == 0 && Product(times, 1) == times
  {
    ProductAdds(times - 1, n, 0);
    ProductAdds(times - 1, m, 0);
    ProductAdds(times - 1, 0, 0);
    ProductAdds(times - 1, 1, 0);
    ProductAdds(0, n, 0);
    ProductAdds(0, m, 0);
    ProductAdds(0, 1, 0);
    hide Product;
    if times > 1 {
      ProductGrows(times - 1, n, m);
    }
  }

  /** `many` has every value of `few` as many times as given. */
  ghost predicate Multiplied(many: seq<real>, few: seq<real>, times: nat, v: real) {
    && |many| == Product(times, |few|)
    && CountBelow(many, v) == Product(times, CountBelow(few, v))
    && CountUpTo(many, v) == Product(times, CountUpTo(few, v))
  }

  lemma {:induction false} CountsRepeated(s: seq<real>, times: nat, v: real)
    ensures Multiplied(Repeat(s, times), s, times, v)
  {
    if times == 0 {
      assert Repeat(s, 0) == [];
    } else {
      CountsRepeated(s, times - 1, v);
      var before := Repeat(s, times - 1);
      assert Repeat(s, times) == before + s;
      hide Repeat, CountBelow, CountUpTo, Product;
      CountsAdd(before, s, v);
      ProductAdds(times - 1, |s|, 0);
      ProductAdds(times - 1, CountBelow(s, v), 0);
      ProductAdds(times - 1, CountUpTo(s, v), 0);
    }
  }

  lemma MultipliedAdds(many: seq<real>, few: seq<real>, more: seq<real>, here: seq<real>, times: nat, v: real)
    requires Multiplied(many, few, times, v) && Multiplied(more, here, times, v)
    ensures Multiplied(many + more, few + here, times, v)
  {
    hide Product;
    CountsAdd(many, more, v);
    CountsAdd(few, here, v);
    ProductAdds(times, |few|, |here|);
    ProductAdds(times, CountBelow(few, v), CountBelow(here, v));
    ProductAdds(times, CountUpTo(few, v), CountUpTo(here, v));
  }

  /** Each value is there as many times as the field is named. */
  lemma {:induction false} ValuesRepeated(records: seq<Record>, options: Options, group: string, f: string, v: real)
    ensures Multiplied(ValuesIn(records, options, group, f), ValuesIn(records, Once(options, f), group, f),
                       Times(options.fields, f), v)
  {
    hide Multiplied;
    var times := Times(options.fields, f);
    if records == [] {
      NothingMultiplied(times, v);
    } else {
      var before, last := records[..|records| - 1], records[|records| - 1];
      ValuesRepeated(before, options, group, f, v);
      assert records == before + [last];
      OtherGroups(before, last, options, group);
      OtherGroups(before, last, Once(options, f), group);
      if InGroup(last, options, group) {
        PushesMultiplied(last, options.fields, f, v);
        MultipliedAdds(ValuesIn(before, options, group, f), ValuesIn(before, Once(options, f), group, f),
                       Pushes(last, options.fields, f), Pushes(last, [f], f), times, v);
      }
    }
  }

  lemma NothingMultiplied(times: nat, v: real)
    ensures Multiplied([], [], times, v)
  {
  }

  lemma PushesMultiplied(record: Record, fields: seq<string>, f: string, v: real)
    ensures Multiplied(Pushes(record, fields, f), Pushes(record, [f], f), Times(fields, f), v)
  {
    CountsRepeated(Finites(record, f), Times(fields, f), v);
    OneMoreField(record, [f], 0, f);
    assert [f][..1] == [f];
  }

  ghost function Once(options: Options, f: string): Options {
    options.(fields := [f])
  }

  ghost function Scale(m: real, x: real): real {
    m * x
  }

  /** What the rank is cut off from. */
  ghost function RawRank(n: nat, p: real): int {
    Ceil(Scale(p / 100.0, n as real))
  }

  lemma RankIsCutOff(n: nat, p: real)
    requires n > 0
    ensures var c := RawRank(n, p); Rank(n, p) == if c < 1 then 1 else if c > n then n else c
  {
  }

  lemma RankScales(n: nat, times: nat, p: real)
    requires n > 0 && times > 0
    ensures Product(times, n) > 0
    ensures Product(times, Rank(n, p) - 1) < Rank(Product(times, n), p) <= Product(times, Rank(n, p))
  {
    hide Product, Rank, RawRank;
    var rank, c := Rank(n, p), RawRank(n, p);
    ProductGrows(times, 0, n);
    RankIsCutOff(n, p);
    RankIsCutOff(Product(times, n), p);
    RawRankScales(n, times, p);
    ProductGrows(times, 1, rank);
    ProductGrows(times, rank, n);
    ProductGrows(times, rank - 1, n);
    ProductGrows(times, rank - 1, c - 1);
    ProductGrows(times, c, rank);
  }

  lemma RawRankScales(n: nat, times: nat, p: real)
    requires n > 0 && times > 0 && Product(times, n) > 0
    ensures Product(times, RawRank(n, p) - 1) < RawRank(Product(times, n), p) <= Product(times, RawRank(n, p))
  {
    var x, c := Scale(p / 100.0, n as real), RawRank(n, p);
    Rearranged(p / 100.0, times, n);
    CeilIsNear(x);
    hide Product, Scale;
    ProductOfReals(times, c - 1);
    ProductOfReals(times, c);
    ScaleGrows(times, (c - 1) as real, x);
    ScaleGrows(times, x, c as real);
    CeilWithin(Scale(times as real, x), Product(times, c - 1), Product(times, c));
  }

  lemma Rearranged(q: real, times: nat, n: nat)
    ensures Scale(q, Product(times, n) as real) == Scale(times as real, Scale(q, n as real))
  {
    ProductOfReals(times, n);
    hide Product;
    Reassociated(q, times as real, n as real);
  }

  lemma Reassociated(q: real, m: real, x: real)
    ensures Scale(q, Scale(m, x)) == Scale(m, Scale(q, x))
  {
  }

  lemma ScaleStep(m: real, x: real)
    ensures Scale(m + 1.0, x) == Scale(m, x) + x && Scale(0.0, x) == 0.0
  {
  }

  lemma CeilIsNear(x: real)
    ensures (Ceil(x) - 1) as real < x <= Ceil(x) as real
  {
  }

  lemma {:induction false} ProductOfReals(times: nat, n: int)
    ensures Product(times, n) as real == Scale(times as real, n as real)
  {
    hide Product, Scale;
    if times == 0 {
      ProductAdds(0, n, 0);
      ScaleStep(0.0, n as real);
    } else {
      ProductOfReals(times - 1, n);
      ProductAdds(times - 1, n, 0);
      ScaleStep((times - 1) as real, n as real);
    }
  }

  lemma {:induction false} ScaleGrows(times: nat, a: real, b: real)
    requires times > 0
    ensures a < b ==> Scale(times as real, a) < Scale(times as real, b)
    ensures a <= b ==> Scale(times as real, a) <= Scale(times as real, b)
  {
    hide Scale;
    ScaleStep((times - 1) as real, a);
    ScaleStep((times - 1) as real, b);
    if times > 1 {
      ScaleGrows(times - 1, a, b);
    } else {
      ScaleStep(0.0, a);
      ScaleStep(0.0, b);
    }
  }

  lemma CeilWithin(y: real, lo: int, hi: int)
    requires lo as real < y <= hi as real
    ensures lo < Ceil(y) <= hi
  {
  }

  lemma {:induction false} UpToIsBelow(s: seq<real>, u: real, v: real)
    requires u < v
    ensures CountUpTo(s, u) <= CountBelow(s, v)
  {
    if s != [] {
      UpToIsBelow(s[..|s| - 1], u, v);
    }
  }

  /** Two values at one rank are equal. */
  lemma SameRank(s: seq<real>, rank: nat, u: real, v: real)
    requires CountBelow(s, u) < rank <= CountUpTo(s, u) && CountBelow(s, v) < rank <= CountUpTo(s, v)
    ensures u == v
  {
    if u < v {
      UpToIsBelow(s, u, v);
    } else if v < u {
      UpToIsBelow(s, v, u);
    }
  }

  lemma StillAtTheRank(many: seq<real>, few: seq<real>, times: nat, p: real, v: real)
    requires times > 0 && few != [] && Multiplied(many, few, times, v)
    requires CountBelow(few, v) < Rank(|few|, p) <= CountUpTo(few, v)
    ensures many != [] && CountBelow(many, v) < Rank(|many|, p) <= CountUpTo(many, v)
  {
    hide Rank, CountBelow, CountUpTo, Product;
    RankScales(|few|, times, p);
    ProductGrows(times, CountBelow(few, v), Rank(|few|, p) - 1);
    ProductGrows(times, Rank(|few|, p), CountUpTo(few, v));
  }

  lemma MultipliedPercentile(many: seq<real>, few: seq<real>, times: nat, p: real)
    requires times > 0 && forall v :: Multiplied(many, few, times, v)
    ensures Percentile(Sort(many), p) == Percentile(Sort(few), p)
  {
    SortSorts(many);
    SortSorts(few);
    assert Multiplied(many, few, times, 0.0);
    ProductAdds(times, 0, 0);
    assert few == [] ==> many == [];
    if few != [] {
      hide Sort, Ascending, Rank, CountBelow, CountUpTo, Multiplied;
      PercentileIsNearestRank(Sort(few), p);
      var u := Percentile(Sort(few), p).value;
      CountsOfPermutation(Sort(few), few, u);
      StillAtTheRank(many, few, times, p, u);
      PercentileIsNearestRank(Sort(many), p);
      var v := Percentile(Sort(many), p).value;
      CountsOfPermutation(Sort(many), many, v);
      SameRank(many, Rank(|many|, p), u, v);
    }
  }

  lemma MaxIsPercentile(sorted: seq<real>)
    requires sorted != []
    ensures Percentile(sorted, 100.0) == Some(sorted[|sorted| - 1])
  {
    assert 100.0 / 100.0 * |sorted| as real == |sorted| as real;
  }

  /** Naming a field again pushes its values again, and no statistic notices. */
  lemma RepetitionKeepsStats(records: seq<Record>, options: Options, group: string, f: string)
    requires f in options.fields
    ensures StatsOf(Sort(ValuesIn(records, options, group, f)))
            == StatsOf(Sort(ValuesIn(records, Once(options, f), group, f)))
  {
    var many, few := ValuesIn(records, options, group, f), ValuesIn(records, Once(options, f), group, f);
    NamedIsCounted(options.fields, f);
    forall v ensures Multiplied(many, few, Times(options.fields, f), v) {
      ValuesRepeated(records, options, group, f, v);
    }
    hide Sort, ValuesIn, Rank, Multiplied;
    forall p ensures Percentile(Sort(many), p) == Percentile(Sort(few), p) {
      MultipliedPercentile(many, few, Times(options.fields, f), p);
    }
    assert Percentile(Sort(many), 100.0) == Percentile(Sort(few), 100.0);
    if Sort(many) != [] { MaxIsPercentile(Sort(many)); }
    if Sort(few) != [] { MaxIsPercentile(Sort(few)); }
  }

  // ----- rows, read off the records -----

  /** The value's text is the filter's, "undefined" without one. */
  ghost predicate Meets(record: Record, filter: Filter) {
    if filter.key !in record then filter.value == "undefined"
    else
      match record[filter.key]
      case Null => filter.value == "null"
      case Finite(_, text) => filter.value == text
      case Other(text) => filter.value == text
  }

  ghost function Shown(record: Record, key: string): string {
    if key !in record then ""
    else
      match record[key]
      case Null => ""
      case Finite(_, text) => text
      case Other(text) => text
  }

  /** The key texts with a slash between any two, built from the front. */
  ghost function Label(record: Record, keys: seq<string>): string {
    if keys == [] then ""
    else if |keys| == 1 then Shown(record, keys[0])
    else Shown(record, keys[0]) + " / " + Label(record, keys[1..])
  }

  ghost predicate IsMember(record: Record, options: Options, group: string) {
    && (forall filter :: filter in options.filters ==> Meets(record, filter))
    && group == if options.groupBy == [] then "all" else Label(record, options.groupBy)
  }

  ghost function Members(records: seq<Record>, options: Options, group: string): set<nat> {
    set i: nat | i < |records| && IsMember(records[i], options, group)
  }

  datatype Bound = Any | UpTo(v: real) | Under(v: real)

  /** The record is a member with a finite value of the field within the bound. */
  ghost predicate IsSample(record: Record, options: Options, group: string, f: string, bound: Bound) {
    && IsMember(record, options, group) && f in record && record[f].Finite?
    && match bound
       case Any => true
       case UpTo(v) => record[f].number <= v
       case Under(v) => record[f].number < v
  }

  ghost function Sampled(records: seq<Record>, options: Options, group: string, f: string, bound: Bound): set<nat> {
    set i: nat | i < |records| && IsSample(records[i], options, group, f, bound)
  }

  /** At least `percent` of a hundred of the sampled members are at or below the value, and fewer are below. */
  ghost predicate SplitsAt(records: seq<Record>, options: Options, group: string, f: string, percent: nat, v: real) {
    100 * |Sampled(records, options, group, f, UpTo(v))| >= percent * |Sampled(records, options, group, f, Any)|
      > 100 * |Sampled(records, options, group, f, Under(v))|
  }

  ghost predicate StatsReadOff(stats: FieldStats, records: seq<Record>, options: Options, group: string, f: string) {
    if Sampled(records, options, group, f, Any) == {} then stats == FieldStats(None, None, None, None)
    else
      && stats.p50.Some? && SplitsAt(records, options, group, f, 50, stats.p50.value)
      && stats.p90.Some? && SplitsAt(records, options, group, f, 90, stats.p90.value)
      && stats.p99.Some? && SplitsAt(records, options, group, f, 99, stats.p99.value)
      && stats.max.Some? && SplitsAt(records, options, group, f, 100, stats.max.value)
  }

  lemma MeetsEach(record: Record, filters: seq<Filter>)
    ensures MatchesFilters(record, filters) <==> forall filter :: filter in filters ==> Meets(record, filter)
  {
    if MatchesFilters(record, filters) {
      forall filter | filter in filters ensures Meets(record, filter) {
        var i :| 0 <= i < |filters| && filters[i] == filter;
      }
    } else {
      var i :| 0 <= i < |filters| && TextOf(record, filters[i].key) != filters[i].value;
      assert filters[i] in filters;
    }
  }

  lemma {:induction false} LabelIsJoined(record: Record, keys: seq<string>)
    ensures Label(record, keys) == JoinKeys(record, keys)
  {
    if |keys| > 1 {
      var front, last := keys[..|keys| - 1], keys[|keys| - 1];
      LabelGrows(record, front, last);
      LabelIsJoined(record, front);
      assert keys == front + [last];
    }
  }

  lemma {:induction false} LabelGrows(record: Record, keys: seq<string>, key: string)
    requires keys != []
    ensures Label(record, keys + [key]) == Label(record, keys) + " / " + Shown(record, key)
  {
    assert (keys + [key])[1..] == keys[1..] + [key];
    if |keys| > 1 {
      LabelGrows(record, keys[1..], key);
    }
  }

  lemma MemberIff(record: Record, options: Options, group: string)
    ensures IsMember(record, options, group) <==> InGroup(record, options, group)
  {
    MeetsEach(record, options.filters);
    LabelIsJoined(record, options.groupBy);
  }

  lemma {:induction false} MembersAreCounted(records: seq<Record>, options: Options, group: string)
    ensures CountIn(records, options, group) == |Members(records, options, group)|
  {
    if records == [] {
      assert Members(records, options, group) == {};
    } else {
      var front, last := records[..|records| - 1], records[|records| - 1];
      assert records == front + [last];
      MembersAreCounted(front, options, group);
      MemberIff(last, options, group);
      OneMoreMember(front, last, options, group);
      hide IsMember, InGroup, Members;
    }
  }

  lemma OneMoreMember(front: seq<Record>, last: Record, options: Options, group: string)
    ensures |Members(front + [last], options, group)|
            == |Members(front, options, group)| + (if IsMember(last, options, group) then 1 else 0)
  {
    hide IsMember;
    assert Members(front + [last], options, group)
        == Members(front, options, group) + if IsMember(last, options, group) then {|front|} else {};
  }

  /** The values pushed for a field named once are those of the sampled members. */
  lemma {:induction false} SamplesAreCounted(records: seq<Record>, options: Options, group: string, f: string, v: real)
    ensures var values := ValuesIn(records, Once(options, f), group, f);
            && |values| == |Sampled(records, options, group, f, Any)|
            && CountUpTo(values, v) == |Sampled(records, options, group, f, UpTo(v))|
            && CountBelow(values, v) == |Sampled(records, options, group, f, Under(v))|
  {
    if records == [] {
      NothingSampled(options, group, f, Any);
      NothingSampled(options, group, f, UpTo(v));
      NothingSampled(options, group, f, Under(v));
    } else {
      var front, last := records[..|records| - 1], records[|records| - 1];
      assert records == front + [last];
      SamplesAreCounted(front, options, group, f, v);
      OneMoreValue(front, last, options, group, f, v);
      OneMoreSample(front, last, options, group, f, Any);
      OneMoreSample(front, last, options, group, f, UpTo(v));
      OneMoreSample(front, last, options, group, f, Under(v));
      hide CountUpTo, CountBelow, ValuesIn, Sampled, IsMember;
    }
  }

  lemma NothingSampled(options: Options, group: string, f: string, bound: Bound)
    ensures Sampled([], options, group, f, bound) == {}
  {
  }

  lemma OneMoreSample(front: seq<Record>, last: Record, options: Options, group: string, f: string, bound: Bound)
    ensures |Sampled(front + [last], options, group, f, bound)|
            == |Sampled(front, options, group, f, bound)|
               + (if IsSample(last, options, group, f, bound) then 1 else 0)
  {
    hide IsSample;
    assert Sampled(front + [last], options, group, f, bound)
        == Sampled(front, options, group, f, bound)
           + if IsSample(last, options, group, f, bound) then {|front|} else {};
  }

  lemma OneMoreValue(front: seq<Record>, last: Record, options: Options, group: string, f: string, v: real)
    ensures var (before, after) := (ValuesIn(front, Once(options, f), group, f),
                                    ValuesIn(front + [last], Once(options, f), group, f));
            && |after| == |before| + (if IsSample(last, options, group, f, Any) then 1 else 0)
            && CountUpTo(after, v) == CountUpTo(before, v)
               + (if IsSample(last, options, group, f, UpTo(v)) then 1 else 0)
            && CountBelow(after, v) == CountBelow(before, v)
               + (if IsSample(last, options, group, f, Under(v)) then 1 else 0)
  {
    var before := ValuesIn(front, Once(options, f), group, f);
    OtherGroups(front, last, Once(options, f), group);
    MemberIff(last, options, group);
    assert InGroup(last, Once(options, f), group) == InGroup(last, options, group);
    hide InGroup, IsMember, ValuesIn, Pushes;
    if InGroup(last, options, group) {
      PushedOnce(last, f);
      CountsAdd(before, Finites(last, f), v);
      CountsOfOne(last, f, v);
    }
  }

  lemma CountsOfOne(record: Record, f: string, v: real)
    ensures var one := f in record && record[f].Finite?;
            && CountUpTo(Finites(record, f), v) == (if one && record[f].number <= v then 1 else 0)
            && CountBelow(Finites(record, f), v) == (if one && record[f].number < v then 1 else 0)
  {
    if f in record && record[f].Finite? {
      assert [record[f].number][..0] == [];
    }
  }

  lemma PushedOnce(record: Record, f: string)
    ensures Pushes(record, [f], f) == Finites(record, f)
  {
    OneMoreField(record, [f], 0, f);
    NothingPushed(record, f);
    assert [f][..1] == [f] && [f][..0] == [];
    hide Pushes;
  }

  lemma ShareOfSamples(records: seq<Record>, options: Options, group: string, f: string, percent: nat, v: real)
    requires IsShare(ValuesIn(records, Once(options, f), group, f), percent, v)
    ensures SplitsAt(records, options, group, f, percent, v)
  {
    CountsAreSizes(ValuesIn(records, Once(options, f), group, f), v);
    SamplesAreCounted(records, options, group, f, v);
    hide ValuesIn, AtMost, Below, Sampled;
  }

  /** The statistics of a group's field are those of the records that pass, carry its label and have a finite value. */
  lemma StatsAreReadOff(records: seq<Record>, options: Options, group: string, f: string)
    requires f in options.fields
    ensures StatsReadOff(StatsOf(Sort(ValuesIn(records, options, group, f))), records, options, group, f)
  {
    RepetitionKeepsStats(records, options, group, f);
    var values := ValuesIn(records, Once(options, f), group, f);
    SamplesAreCounted(records, options, group, f, 0.0);
    hide ValuesIn, Sampled, IsShare, SplitsAt, Rank;
    if values == [] {
      SortSorts(values);
    } else {
      StatsAreShares(values);
      PercentileIsShare(values, 100);
      SortSorts(values);
      MaxIsPercentile(Sort(values));
      var stats := StatsOf(Sort(values));
      ShareOfSamples(records, options, group, f, 50, stats.p50.value);
      ShareOfSamples(records, options, group, f, 90, stats.p90.value);
      ShareOfSamples(records, options, group, f, 99, stats.p99.value);
      ShareOfSamples(records, options, group, f, 100, stats.max.value);
    }
  }

  lemma RowReadOff(row: GroupRow, records: seq<Record>, options: Options)
    requires RowIs(row, records, options)
    ensures row.count == |Members(records, options, row.group)|
    ensures forall f :: f in options.fields ==>
              f in row.fields && StatsReadOff(row.fields[f], records, options, row.group, f)
  {
    hide StatsReadOff, ValuesIn, StatsOf, Sort, CountIn;
    MembersAreCounted(records, options, row.group);
    forall f | f in options.fields ensures StatsReadOff(row.fields[f], records, options, row.group, f) {
      StatsAreReadOff(records, options, row.group, f);
    }
  }

  lemma {:induction false} NamedIsCounted(fields: seq<string>, f: string)
    ensures f in fields <==> Times(fields, f) > 0
  {
    if fields != [] {
      NamedIsCounted(fields[..|fields| - 1], f);
      assert fields == fields[..|fields| - 1] + [fields[|fields| - 1]];
    }
  }
}
