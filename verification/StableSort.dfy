/** `Array.prototype.sort` with a numeric comparator: ascending by key, equal keys in their old order. */
module StableSort {

  ghost predicate Ascending<T>(s: seq<T>, key: T -> real) {
    forall i, j :: 0 <= i < j < |s| ==> key(s[i]) <= key(s[j])
  }

  ghost predicate DistinctKeys<T>(s: seq<T>, key: T -> real) {
    forall i, j :: 0 <= i < j < |s| ==> key(s[i]) != key(s[j])
  }

  function Insert<T>(s: seq<T>, x: T, key: T -> real): seq<T> {
    if s == [] || key(s[|s| - 1]) <= key(x) then s + [x]
    else Insert(s[..|s| - 1], x, key) + [s[|s| - 1]]
  }

  function Sort<T>(s: seq<T>, key: T -> real): seq<T> {
    if s == [] then [] else Insert(Sort(s[..|s| - 1], key), s[|s| - 1], key)
  }

  /** The elements with one key, in order. */
  function With<T>(s: seq<T>, key: T -> real, k: real): seq<T> {
    if s == [] then []
    else With(s[..|s| - 1], key, k) + (if key(s[|s| - 1]) == k then [s[|s| - 1]] else [])
  }

  lemma {:induction false} InsertAdds<T>(s: seq<T>, x: T, key: T -> real)
    ensures multiset(Insert(s, x, key)) == multiset(s) + multiset{x}
  {
    if s != [] && key(s[|s| - 1]) > key(x) {
      InsertAdds(s[..|s| - 1], x, key);
      assert s == s[..|s| - 1] + [s[|s| - 1]];
    }
  }

  lemma {:induction false} InsertKeepsOrder<T>(s: seq<T>, x: T, key: T -> real)
    requires Ascending(s, key)
    ensures Ascending(Insert(s, x, key), key)
    ensures forall y :: y in Insert(s, x, key) ==> y in s || y == x
  {
    if s != [] && key(s[|s| - 1]) > key(x) {
      var front := s[..|s| - 1];
      InsertKeepsOrder(front, x, key);
      forall y | y in Insert(front, x, key) ensures key(y) <= key(s[|s| - 1]) {}
      forall i | 0 <= i < |Insert(front, x, key)| ensures Insert(front, x, key)[i] in Insert(front, x, key) {}
    }
  }

  lemma {:induction false} InsertIsStable<T>(s: seq<T>, x: T, key: T -> real, k: real)
    ensures With(Insert(s, x, key), key, k) == With(s, key, k) + (if key(x) == k then [x] else [])
  {
    var inserted := Insert(s, x, key);
    if s == [] || key(s[|s| - 1]) <= key(x) {
      assert inserted[..|s|] == s;
    } else {
      InsertIsStable(s[..|s| - 1], x, key, k);
      assert inserted[..|inserted| - 1] == Insert(s[..|s| - 1], x, key);
    }
  }

  lemma {:induction false} SortSorts<T>(s: seq<T>, key: T -> real)
    ensures Ascending(Sort(s, key), key) && multiset(Sort(s, key)) == multiset(s)
  {
    if s != [] {
      var front, last := s[..|s| - 1], s[|s| - 1];
      SortSorts(front, key);
      InsertAdds(Sort(front, key), last, key);
      InsertKeepsOrder(Sort(front, key), last, key);
      assert s == front + [last];
    }
  }

  lemma SortKeepsMembers<T>(s: seq<T>, key: T -> real)
    ensures forall y :: y in Sort(s, key) <==> y in s
  {
    SortSorts(s, key);
    SameMembers(Sort(s, key), s);
  }

  lemma SameMembers<T>(a: seq<T>, b: seq<T>)
    requires multiset(a) == multiset(b)
    ensures forall y :: y in a <==> y in b
  {
    forall y ensures y in a <==> y in b {
      assert y in a <==> y in multiset(a);
      assert y in b <==> y in multiset(b);
    }
  }

  /** Elements that compare equal keep the order they had. */
  lemma {:induction false} SortIsStable<T>(s: seq<T>, key: T -> real, k: real)
    ensures With(Sort(s, key), key, k) == With(s, key, k)
  {
    if s != [] {
      SortIsStable(s[..|s| - 1], key, k);
      InsertIsStable(Sort(s[..|s| - 1], key), s[|s| - 1], key, k);
    }
  }

  lemma {:induction false} InsertKeepsKeysDistinct<T>(s: seq<T>, x: T, key: T -> real)
    requires Ascending(s, key) && DistinctKeys(s, key) && forall y :: y in s ==> key(y) != key(x)
    ensures DistinctKeys(Insert(s, x, key), key)
  {
    if s != [] && key(s[|s| - 1]) > key(x) {
      var front := s[..|s| - 1];
      InsertKeepsKeysDistinct(front, x, key);
      InsertKeepsOrder(front, x, key);
      forall i | 0 <= i < |Insert(front, x, key)| ensures key(Insert(front, x, key)[i]) != key(s[|s| - 1]) {
        assert Insert(front, x, key)[i] in Insert(front, x, key);
      }
    }
  }

  lemma {:induction false} SortKeepsKeysDistinct<T>(s: seq<T>, key: T -> real)
    requires DistinctKeys(s, key)
    ensures DistinctKeys(Sort(s, key), key)
  {
    if s != [] {
      var front, last := s[..|s| - 1], s[|s| - 1];
      SortKeepsKeysDistinct(front, key);
      SortSorts(front, key);
      forall y | y in Sort(front, key) ensures key(y) != key(last) {
        assert y in multiset(Sort(front, key)) && y in multiset(front);
        var i :| 0 <= i < |front| && front[i] == y;
        assert s[i] == y;
      }
      InsertKeepsKeysDistinct(Sort(front, key), last, key);
    }
  }
}
