/**
 The text a seed migration quotes: dollar quoting with a tag that does not
 occur in the string, and single quotes doubled. Each is read back the way
 PostgreSQL scans it (sections 4.1.2.1 and 4.1.2.4 of its documentation).
 */
module SqlQuoting {
  import opened Prelude
  import opened Numerals

  // ----- substrings -----

  predicate OccursAt(s: string, t: string, p: nat) {
    p + |t| <= |s| && s[p..p + |t|] == t
  }

  predicate Includes(s: string, t: string) {
    exists p: nat :: p <= |s| && OccursAt(s, t, p)
  }

  /** The first occurrence at or after `from`. */
  ghost function IndexOf(s: string, t: string, from: nat): (p: Option<nat>)
    requires from <= |s|
    ensures p.Some? ==>
              from <= p.value && OccursAt(s, t, p.value) && forall q: nat :: from <= q < p.value ==> !OccursAt(s, t, q)
    ensures p.None? ==> forall q: nat :: from <= q <= |s| ==> !OccursAt(s, t, q)
    decreases |s| - from
  {
    if OccursAt(s, t, from) then Some(from)
    else if from == |s| then None
    else IndexOf(s, t, from + 1)
  }

  // ----- dollar quoting -----

  /** The `k`th tag tried: `$gb$`, `$gb0$`, `$gb1$`, … */
  ghost function Tag(k: nat): string {
    if k == 0 then "$gb$" else "$gb" + Numeral(k - 1) + "$"
  }

  /** A tag is a dollar, a body without dollars, and a dollar. */
  lemma TagShape(k: nat)
    ensures |Tag(k)| >= 4 && Tag(k)[0] == '$' && Tag(k)[|Tag(k)| - 1] == '$'
    ensures forall i :: 0 < i < |Tag(k)| - 1 ==> Tag(k)[i] != '$'
  {
  }

  lemma TagInjective(j: nat, k: nat)
    requires Tag(j) == Tag(k)
    ensures j == k
  {
    if j > 0 { assert Tag(j)[3..|Tag(j)| - 1] == Numeral(j - 1); NumeralValue(j - 1); }
    if k > 0 { assert Tag(k)[3..|Tag(k)| - 1] == Numeral(k - 1); NumeralValue(k - 1); }
  }

  /** Different tags cannot occur at the same position: the second dollar ends the tag. */
  lemma OneTagPerPosition(s: string, p: nat, j: nat, k: nat)
    requires OccursAt(s, Tag(j), p) && OccursAt(s, Tag(k), p)
    ensures j == k
  {
    TagShape(j);
    TagShape(k);
    var a, b := Tag(j), Tag(k);
    forall i | 0 <= i < |a| && i < |b| ensures a[i] == b[i] == s[p + i] {
      assert a[i] == s[p..p + |a|][i] && b[i] == s[p..p + |b|][i];
    }
    assert |a| == |b|;
    assert a == b;
    TagInjective(j, k);
  }

  ghost function FirstAt(s: string, t: string): nat
    requires Includes(s, t)
  {
    IndexOf(s, t, 0).GetOr(0)
  }

  lemma FirstAtOccurs(s: string, t: string)
    requires Includes(s, t)
    ensures OccursAt(s, t, FirstAt(s, t))
  {
    var p: nat :| p <= |s| && OccursAt(s, t, p);
  }

  ghost function TagPositions(s: string, n: nat): set<nat>
    requires forall k: nat :: k < n ==> Includes(s, Tag(k))
  {
    set k: nat | k < n :: FirstAt(s, Tag(k))
  }

  lemma PositionIsNew(s: string, n: nat)
    requires forall k: nat :: k < n ==> Includes(s, Tag(k))
    requires Includes(s, Tag(n))
    ensures FirstAt(s, Tag(n)) < |s| && FirstAt(s, Tag(n)) !in TagPositions(s, n)
  {
    var p := FirstAt(s, Tag(n));
    FirstAtOccurs(s, Tag(n));
    TagShape(n);
    hide Tag, OccursAt, Includes, FirstAt;
    forall k: nat | k < n ensures FirstAt(s, Tag(k)) != p {
      FirstAtOccurs(s, Tag(k));
      if FirstAt(s, Tag(k)) == p {
        OneTagPerPosition(s, p, k, n);
      }
    }
  }

  /** So a string of length |s| can hold at most |s| of them. */
  lemma {:induction false} TagsTakePositions(s: string, n: nat)
    requires forall k: nat :: k < n ==> Includes(s, Tag(k))
    ensures |TagPositions(s, n)| == n && n <= |s|
    ensures forall p :: p in TagPositions(s, n) ==> p < |s|
  {
    hide Tag, OccursAt, Includes, FirstAt;
    if n > 0 {
      TagsTakePositions(s, n - 1);
      PositionIsNew(s, n - 1);
      assert TagPositions(s, n) == TagPositions(s, n - 1) + {FirstAt(s, Tag(n - 1))};
      PositionsFit(TagPositions(s, n), |s|);
    }
  }

  lemma {:induction false} PositionsFit(positions: set<nat>, n: nat)
    requires forall p :: p in positions ==> p < n
    ensures |positions| <= n
  {
    if n > 0 {
      PositionsFit(positions - {n - 1}, n - 1);
    } else {
      assert positions == {};
    }
  }

  /** The first of the tags that does not occur in the string. */
  ghost predicate FirstFresh(s: string, k: nat) {
    !Includes(s, Tag(k)) && forall j: nat :: j < k ==> Includes(s, Tag(j))
  }

  /** Terminates on every string, with the first tag that does not occur in it. */
  method DollarQuote(s: string) returns (quoted: string)
    ensures exists k: nat :: k <= |s| && FirstFresh(s, k) && quoted == Tag(k) + s + Tag(k)
  {
    var tag, n := "$gb$", 0;
    ghost var k: nat := 0;
    while Includes(s, tag)
      invariant tag == Tag(k) && n == k && k <= |s|
      invariant forall j: nat :: j < k ==> Includes(s, Tag(j))
      decreases |s| - k
    {
      tag := "$gb" + Numeral(n) + "$";
      n, k := n + 1, k + 1;
      TagsTakePositions(s, k);
    }
    quoted := tag + s + tag;
    assert FirstFresh(s, k);
  }

  datatype Scan = Scan(content: string, rest: string)

  /** After the opening tag, everything up to the next occurrence of the tag. */
  ghost function ScanDollar(text: string, tag: string): Option<Scan> {
    match IndexOf(text, tag, 0)
    case None => None
    case Some(p) => Some(Scan(text[..p], text[p + |tag|..]))
  }

  ghost predicate EndsIn(s: string, t: string) {
    |t| <= |s| && s[|s| - |t|..] == t
  }

  /**
   The literal reads back as `s`, whatever follows it, exactly when `s` does
   not end in the tag less its last dollar. Freshness of the tag alone leaves
   that overlap open.
   */
  lemma DollarQuoteRoundTrip(s: string, k: nat, after: string)
    requires !Includes(s, Tag(k))
    ensures ScanDollar(s + Tag(k) + after, Tag(k)) == Some(Scan(s, after)) <==> !EndsIn(s, Tag(k)[..|Tag(k)| - 1])
  {
    var tag, text := Tag(k), s + Tag(k) + after;
    var stub := tag[..|tag| - 1];
    TagShape(k);
    assert OccursAt(text, tag, |s|);
    if EndsIn(s, stub) {
      OverlapOccurs(s, k, after);
      assert IndexOf(text, tag, 0).value <= |s| - |stub|;
    } else {
      forall q: nat | q < |s| ensures !OccursAt(text, tag, q) {
        NoEarlierTag(s, k, after, q);
      }
      assert text[..|s|] == s && text[|s| + |tag|..] == after;
    }
  }

  lemma OverlapOccurs(s: string, k: nat, after: string)
    requires EndsIn(s, Tag(k)[..|Tag(k)| - 1])
    ensures OccursAt(s + Tag(k) + after, Tag(k), |s| - (|Tag(k)| - 1))
  {
    TagShape(k);
    var tag, text := Tag(k), s + Tag(k) + after;
    var p := |s| - (|tag| - 1);
    assert text[p..p + |tag|] == s[p..] + [text[|s|]];
    assert s[p..] == tag[..|tag| - 1];
  }

  /** An occurrence that starts inside `s` and ends behind it shares just one dollar with the closing tag. */
  lemma SharedDollar(s: string, k: nat, after: string, q: nat)
    requires q < |s| < q + |Tag(k)| && OccursAt(s + Tag(k) + after, Tag(k), q)
    ensures EndsIn(s, Tag(k)[..|Tag(k)| - 1])
  {
    var tag, text := Tag(k), s + Tag(k) + after;
    TagShape(k);
    var d := |s| - q;
    assert forall i :: 0 <= i < |tag| ==> text[q + i] == text[q..q + |tag|][i] == tag[i];
    assert tag[d] == text[q + d] == text[|s|] == tag[0] == '$';
    assert d == |tag| - 1;
    forall i | 0 <= i < d ensures s[q..][i] == tag[..d][i] {
      assert s[q + i] == text[q + i];
    }
    assert s[q..] == tag[..d];
  }

  lemma NoEarlierTag(s: string, k: nat, after: string, q: nat)
    requires !Includes(s, Tag(k)) && !EndsIn(s, Tag(k)[..|Tag(k)| - 1]) && q < |s|
    ensures !OccursAt(s + Tag(k) + after, Tag(k), q)
  {
    var tag, text := Tag(k), s + Tag(k) + after;
    TagShape(k);
    assert !OccursAt(s, tag, q);
    if q + |tag| <= |s| {
      assert text[q..q + |tag|] == s[q..q + |tag|];
    } else if OccursAt(text, tag, q) {
      SharedDollar(s, k, after, q);
    }
  }

  /** The overlap on the shortest string that has it. */
  lemma OverlapLosesTheText()
    ensures !Includes("$gb", Tag(0))
    ensures ScanDollar("$gb" + Tag(0), Tag(0)) == Some(Scan("", "gb$"))
  {
    var text := "$gb" + Tag(0);
    assert text == "$gb$gb$" && text[0..4] == Tag(0);
    assert OccursAt(text, Tag(0), 0);
    assert text[4..] == "gb$";
  }

  // ----- single quotes -----

  function Doubled(s: string): string {
    if s == "" then ""
    else (if s[0] == '\'' then "''" else [s[0]]) + Doubled(s[1..])
  }

  function SqlStr(s: string): string {
    "'" + Doubled(s) + "'"
  }

  /** After the opening quote: a doubled quote is a quote, a single one ends the literal. */
  ghost function ScanQuoted(text: string): Option<Scan> {
    if text == "" then None
    else if text[0] != '\'' then
      match ScanQuoted(text[1..])
      case None => None
      case Some(scan) => Some(Scan([text[0]] + scan.content, scan.rest))
    else if |text| > 1 && text[1] == '\'' then
      match ScanQuoted(text[2..])
      case None => None
      case Some(scan) => Some(Scan("'" + scan.content, scan.rest))
    else Some(Scan("", text[1..]))
  }

  lemma ScanStep(c: char, tail: string)
    requires ScanQuoted(tail).Some?
    ensures var scan := ScanQuoted(tail).value;
            ScanQuoted((if c == '\'' then "''" else [c]) + tail) == Some(Scan([c] + scan.content, scan.rest))
  {
    var text := (if c == '\'' then "''" else [c]) + tail;
    if c == '\'' {
      assert text[0] == '\'' && text[1] == '\'' && text[2..] == tail;
    } else {
      assert text[0] == c && text[1..] == tail;
    }
  }

  lemma ClosingQuote(after: string)
    requires after == "" || after[0] != '\''
    ensures ScanQuoted("'" + after) == Some(Scan("", after))
  {
    var text := "'" + after;
    assert text[0] == '\'' && text[1..] == after;
  }

  lemma Regrouped(a: string, b: string, c: string)
    ensures (a + b) + c == a + (b + c)
  {
  }

  lemma {:induction false} DoubledReadsBack(s: string, after: string)
    requires after == "" || after[0] != '\''
    ensures ScanQuoted(Doubled(s) + ("'" + after)) == Some(Scan(s, after))
  {
    hide ScanQuoted;
    var closing := "'" + after;
    if s == "" {
      ClosingQuote(after);
      assert Doubled(s) + closing == closing;
    } else {
      var head, rest := if s[0] == '\'' then "''" else [s[0]], Doubled(s[1..]);
      DoubledReadsBack(s[1..], after);
      assert Doubled(s) == head + rest && s == [s[0]] + s[1..];
      hide Doubled;
      ScanStep(s[0], rest + closing);
      Regrouped(head, rest, closing);
    }
  }

  /** The literal reads back as `s`, as long as no quote follows it directly. */
  lemma SqlStrRoundTrip(s: string, after: string)
    requires after == "" || after[0] != '\''
    ensures SqlStr(s)[0] == '\'' && ScanQuoted(SqlStr(s)[1..] + after) == Some(Scan(s, after))
  {
    hide ScanQuoted, Doubled;
    DoubledReadsBack(s, after);
    assert SqlStr(s)[1..] + after == Doubled(s) + ("'" + after);
  }
}
