/** Excerpt windows and the streaming top-K of corpus retrieval. */
module Retrieval {
  import opened Wrappers
  import opened Ordering
  import opened CorpusText

  const MAX_CANDIDATES: nat := 20
  const MAX_TOTAL_CHARS: nat := 4000
  const EXCERPT_CHARS: nat := 200
  const MAX_PAGE_ROWS: nat := 500

  // ----- windows -----

  /** The window before trimming: a quarter of it before the hit where the text allows. */
  function RawWindow(text: string, hit: nat): (r: (nat, nat))
    requires hit < |text|
    ensures r.0 <= hit < r.1 <= |text| && r.1 - r.0 <= EXCERPT_CHARS
    ensures |text| >= EXCERPT_CHARS ==> r.1 - r.0 == EXCERPT_CHARS
    ensures r.1 >= hit + EXCERPT_CHARS - EXCERPT_CHARS / 4 || r.1 == |text|
    ensures hit >= 50 && hit + 150 <= |text| ==> r == (hit - 50, hit + 150)
    ensures hit < 50 ==> r.0 == 0
  {
    var start := if hit >= EXCERPT_CHARS / 4 then hit - EXCERPT_CHARS / 4 else 0;
    var end := if start + EXCERPT_CHARS < |text| then start + EXCERPT_CHARS else |text|;
    (if end >= EXCERPT_CHARS then end - EXCERPT_CHARS else 0, end)
  }

  lemma {:induction false} LeadOnwards(s: string, space: Spaces, k: nat)
    requires k <= |s| && forall i | 0 <= i < k :: space(s[i])
    requires k < |s| ==> !space(s[k])
    ensures Lead(s, space) == k
  {
    if k > 0 {
      LeadOnwards(s[1..], space, k - 1);
    }
  }

  lemma {:induction false} EndBackwards(s: string, space: Spaces, k: nat)
    requires k <= |s| && forall i | k <= i < |s| :: space(s[i])
    requires k > 0 ==> !space(s[k - 1])
    ensures End(s, space) == k
  {
    if k < |s| {
      EndBackwards(s[..|s| - 1], space, k);
    }
  }

  /** The trimmed window holds exactly the stripped text of the raw one. */
  method BestWindow(text: string, hit: nat, space: Spaces) returns (start: nat, end: nat, excerpt: string)
    requires hit < |text|
    ensures start <= end <= |text| && excerpt == text[start..end] && |excerpt| <= EXCERPT_CHARS
    ensures RawWindow(text, hit).0 <= start && end <= RawWindow(text, hit).1
    ensures excerpt == Strip(text[RawWindow(text, hit).0..RawWindow(text, hit).1], space)
    ensures start == RawWindow(text, hit).0 + Lead(text[RawWindow(text, hit).0..RawWindow(text, hit).1], space)
  {
    ghost var lo, hi := RawWindow(text, hit).0, RawWindow(text, hit).1;
    start := RawWindow(text, hit).0;
    end := RawWindow(text, hit).1;
    hide RawWindow, Lead, End;
    while start < end && space(text[start])
      invariant lo <= start <= end == hi
      invariant forall i | lo <= i < start :: space(text[i])
    {
      start := start + 1;
    }
    ghost var cut := text[lo..hi];
    forall i | 0 <= i < start - lo
      ensures space(cut[i])
    {
      assert cut[i] == text[lo + i];
    }
    assert start < hi ==> cut[start - lo] == text[start];
    LeadOnwards(cut, space, start - lo);
    while start < end && space(text[end - 1])
      invariant lo <= start <= end <= hi
      invariant forall i | end <= i < hi :: space(text[i])
    {
      end := end - 1;
    }
    excerpt := text[start..end];
    TrimmedIsStripped(text, lo, hi, start, end, space);
  }

  lemma TrimmedIsStripped(text: string, lo: nat, hi: nat, start: nat, end: nat, space: Spaces)
    requires lo <= start <= end <= hi <= |text|
    requires forall i | lo <= i < start :: space(text[i])
    requires forall i | end <= i < hi :: space(text[i])
    requires start < end ==> !space(text[start]) && !space(text[end - 1])
    ensures text[start..end] == Strip(text[lo..hi], space)
  {
    hide Lead, End;
    var cut := text[lo..hi];
    assert forall i | 0 <= i < |cut| :: cut[i] == text[lo + i];
    if start < end {
      LeadOnwards(cut, space, start - lo);
      EndBackwards(cut, space, end - lo);
      assert cut[start - lo..end - lo] == text[start..end];
    } else {
      forall c | c in cut
        ensures space(c)
      {
        var i :| 0 <= i < |cut| && cut[i] == c;
        assert cut[i] == text[lo + i];
      }
      StripIs(cut, space);
    }
  }

  // ----- scoring -----

  datatype Row = Row(fragmentId: string, text: string, tags: string, displayName: string, title: string, chapterStart: nat, origin: string)

  datatype Candidate = Candidate(fragmentId: string, windowStart: nat, windowEnd: nat, excerpt: string, origin: string)

  datatype Ranked = Ranked(score: nat, id: string, candidate: Candidate)

  /** How texts are cut into grams, where a query first hits a text (nowhere when its boundaries cannot be told), and what is whitespace. */
  datatype Query = Query(wanted: set<string>, grams: string -> set<string>, hit: string -> Option<nat>, space: Spaces)

  ghost predicate QueryOk(q: Query) { forall t: string | t != "" && q.hit(t).Some? :: q.hit(t).value < |t| }

  function Score(q: Query, row: Row): nat {
    8 * |q.wanted * q.grams(row.tags)| + 6 * |q.wanted * q.grams(row.displayName)|
      + 5 * |q.wanted * q.grams(row.title)| + |q.wanted * q.grams(row.text)|
  }

  /** The window of a row, as the collector records it. */
  function Window(q: Query, row: Row): Option<Candidate> {
    if row.text == "" || q.hit(row.text).None? || q.hit(row.text).value >= |row.text| then None
    else
      var raw := RawWindow(row.text, q.hit(row.text).value);
      var cut := row.text[raw.0..raw.1];
      var excerpt := Strip(cut, q.space);
      var start := row.chapterStart + raw.0 + Lead(cut, q.space);
      if excerpt == "" then None
      else Some(Candidate(row.fragmentId, start, start + |excerpt|, excerpt, row.origin))
  }

  /** The ranked entry a row gives rise to, if any. */
  function Rate(q: Query, row: Row): Option<Ranked> {
    if row.text == "" || Score(q, row) == 0 || Window(q, row).None? then None
    else Some(Ranked(Score(q, row), row.fragmentId, Window(q, row).value))
  }

  /** Which rows are rated, and what the entry says: a true excerpt, at its place in the chapter, from the window of the hit. */
  lemma RatedIff(q: Query, row: Row)
    ensures Rate(q, row).Some? <==>
              && q.hit(row.text).Some? && q.hit(row.text).value < |row.text| && Score(q, row) > 0
              && var raw := RawWindow(row.text, q.hit(row.text).value);
                 exists c | c in row.text[raw.0..raw.1] :: !q.space(c)
    ensures Rate(q, row).Some? ==>
              var r := Rate(q, row).value;
              var raw := RawWindow(row.text, q.hit(row.text).value);
              var from, to := r.candidate.windowStart - row.chapterStart, r.candidate.windowEnd - row.chapterStart;
              && r.score == Score(q, row) && r.id == row.fragmentId == r.candidate.fragmentId && r.candidate.origin == row.origin
              && raw.0 <= from < to <= raw.1 && r.candidate.excerpt == row.text[from..to]
              && !q.space(row.text[from]) && !q.space(row.text[to - 1])
              && (forall k | raw.0 <= k < from || to <= k < raw.1 :: q.space(row.text[k]))
  {
    hide Score, RawWindow, Lead, End, Strip;
    if q.hit(row.text).Some? && q.hit(row.text).value < |row.text| {
      var raw := RawWindow(row.text, q.hit(row.text).value);
      StrippedCut(row.text, raw.0, raw.1, q.space);
    }
  }

  lemma StrippedCut(text: string, lo: nat, hi: nat, space: Spaces)
    requires lo <= hi <= |text|
    ensures var cut := text[lo..hi];
            var from, to := lo + Lead(cut, space), lo + End(cut, space);
            && (Strip(cut, space) != "" <==> exists c | c in cut :: !space(c))
            && (Strip(cut, space) != "" ==>
                  && lo <= from < to <= hi && Strip(cut, space) == text[from..to] && to == from + |Strip(cut, space)|
                  && !space(text[from]) && !space(text[to - 1])
                  && (forall k | lo <= k < from || to <= k < hi :: space(text[k])))
  {
    hide Lead, End;
    var cut := text[lo..hi];
    StripIs(cut, space);
    LeadIs(cut, space);
    EndIs(cut, space);
    forall k | lo <= k < hi
      ensures cut[k - lo] == text[k]
    {
    }
    if Strip(cut, space) != "" {
      assert cut[Lead(cut, space)..End(cut, space)] == text[lo + Lead(cut, space)..lo + End(cut, space)];
      forall k | lo <= k < lo + Lead(cut, space) || lo + End(cut, space) <= k < hi
        ensures space(text[k])
      {
        assert space(cut[k - lo]);
      }
    }
  }

  function Rated(q: Query, rows: seq<Row>): seq<Ranked> {
    if rows == [] then []
    else
      var rest := Rated(q, rows[..|rows| - 1]);
      var last := Rate(q, rows[|rows| - 1]);
      if last.Some? then rest + [last.value] else rest
  }

  lemma {:induction false} RatedConcat(q: Query, a: seq<Row>, b: seq<Row>)
    ensures Rated(q, a + b) == Rated(q, a) + Rated(q, b)
  {
    if b == [] {
      assert a + b == a;
    } else {
      hide Rate;
      RatedConcat(q, a, b[..|b| - 1]);
      assert (a + b)[..|a + b| - 1] == a + b[..|b| - 1];
    }
  }

  // ----- the top of a list -----

  /** Better scores first, equal scores by fragment id. */
  function RankKey(r: Ranked): Key { [[-(r.score as int)], Chars(r.id)] }

  function Top(xs: seq<Ranked>): seq<Ranked> {
    var sorted := SortBy(xs, RankKey);
    if |sorted| <= MAX_CANDIDATES then sorted else sorted[..MAX_CANDIDATES]
  }

  function Take<T>(xs: seq<T>, n: nat): seq<T> { if |xs| <= n then xs else xs[..n] }

  /** Inserting into the first n of a sorted list and into the whole agree on the first n. */
  lemma {:induction false} InsertTake<T>(xs: seq<T>, x: T, key: T -> Key, n: nat)
    requires Sorted(xs, key)
    ensures Take(Insert(Take(xs, n), x, key), n) == Take(Insert(xs, x, key), n)
  {
    if n < |xs| {
      hide Less, AtMost;
      var m := |xs| - 1;
      if Less(key(x), key(xs[m])) {
        InsertTake(xs[..m], x, key, n);
        assert xs[..m][..n] == xs[..n];
      } else {
        LastAllows(xs, x, key, n);
      }
    }
  }

  lemma LastAllows<T>(xs: seq<T>, x: T, key: T -> Key, n: nat)
    requires Sorted(xs, key) && n < |xs| && !Less(key(x), key(xs[|xs| - 1]))
    ensures Insert(xs[..n], x, key) == xs[..n] + [x]
  {
    if n > 0 {
      assert AtMost(key(xs[n - 1]), key(xs[|xs| - 1]));
      AtMostTransitive(key(xs[n - 1]), key(xs[|xs| - 1]), key(x));
      AppendStays(xs[..n], x, key);
    }
  }

  /** Keeping only the top while rows stream by loses nothing of the top. */
  lemma TopOfTop(xs: seq<Ranked>, x: Ranked)
    ensures Top(Top(xs) + [x]) == Top(xs + [x])
  {
    hide SortBy, RankKey, Insert;
    var sorted := SortBy(xs, RankKey);
    SortSorts(xs, RankKey);
    TopSorted(xs);
    SortedStays(Top(xs), RankKey);
    SortStep(xs, x);
    SortStep(Top(xs), x);
    InsertTake(sorted, x, RankKey, MAX_CANDIDATES);
  }

  lemma TopSorted(xs: seq<Ranked>)
    ensures Sorted(Top(xs), RankKey)
  {
    hide SortBy, RankKey, AtMost;
    SortSorts(xs, RankKey);
  }

  lemma SortStep(xs: seq<Ranked>, x: Ranked)
    ensures SortBy(xs + [x], RankKey) == Insert(SortBy(xs, RankKey), x, RankKey)
  {
    hide RankKey, Insert;
    assert (xs + [x])[..|xs|] == xs;
  }

  lemma {:induction false} TopOfTops(xs: seq<Ranked>, ys: seq<Ranked>)
    ensures Top(Top(xs) + ys) == Top(xs + ys)
  {
    hide Top;
    if ys == [] {
      assert Top(xs) + ys == Top(xs) && xs + ys == xs;
      TopTwice(xs);
    } else {
      var n := |ys| - 1;
      TopOfTops(xs, ys[..n]);
      TopOfTop(Top(xs) + ys[..n], ys[n]);
      TopOfTop(xs + ys[..n], ys[n]);
      assert Top(xs) + ys == (Top(xs) + ys[..n]) + [ys[n]];
      assert xs + ys == (xs + ys[..n]) + [ys[n]];
    }
  }

  lemma TopTwice(xs: seq<Ranked>)
    ensures Top(Top(xs)) == Top(xs)
  {
    hide SortBy, RankKey;
    TopSorted(xs);
    SortedStays(Top(xs), RankKey);
  }

  predicate IdsDistinct(xs: seq<Ranked>) { forall i, j | 0 <= i < j < |xs| :: xs[i].id != xs[j].id }

  /** With distinct fragment ids the top depends only on which rows were scored, not on their order. */
  lemma TopIgnoresOrder(xs: seq<Ranked>, ys: seq<Ranked>)
    requires IdsDistinct(xs) && IdsDistinct(ys) && forall x :: x in xs <==> x in ys
    ensures Top(xs) == Top(ys)
  {
    hide SortBy, RankKey, Less;
    DistinctRanks(xs);
    DistinctRanks(ys);
    SortDistinctIsStrict(xs, RankKey);
    SortDistinctIsStrict(ys, RankKey);
    StrictlySortedUnique(SortBy(xs, RankKey), SortBy(ys, RankKey), RankKey);
  }

  lemma {:induction false} OnceEach(xs: seq<Ranked>)
    requires IdsDistinct(xs)
    ensures Distinct(xs)
  {
    if xs != [] {
      var n := |xs| - 1;
      OnceEach(xs[..n]);
      assert xs == xs[..n] + [xs[n]];
      assert xs[n] !in xs[..n];
    }
  }

  lemma DistinctRanks(xs: seq<Ranked>)
    requires IdsDistinct(xs)
    ensures Distinct(xs)
    ensures forall x, y | x in xs && y in xs && RankKey(x) == RankKey(y) :: x == y
  {
    hide Distinct;
    OnceEach(xs);
    forall x, y | x in xs && y in xs && RankKey(x) == RankKey(y)
      ensures x == y
    {
      assert RankKey(x)[1] == RankKey(y)[1];
      CharsInjective(x.id, y.id);
    }
  }

  // ----- what being at the top means -----

  /** A higher score, or the same score under an earlier fragment id. */
  predicate Beats(a: Ranked, b: Ranked) { a.score > b.score || (a.score == b.score && Precedes(a.id, b.id)) }

  lemma KeysBeat(a: Ranked, b: Ranked)
    ensures Less(RankKey(a), RankKey(b)) <==> Beats(a, b)
  {
    hide PartLess, Precedes;
    CharsPrecede(a.id, b.id);
    var x, y := -(a.score as int), -(b.score as int);
    SingleParts(x, y);
    assert RankKey(a)[1..] == [Chars(a.id)] && RankKey(b)[1..] == [Chars(b.id)];
    OnePart(Chars(a.id), Chars(b.id));
  }

  /** At most twenty entries, best first; no entry left out beats one that is kept. */
  lemma TopIsBest(xs: seq<Ranked>)
    ensures |Top(xs)| == if |xs| <= 20 then |xs| else 20
    ensures forall i, j | 0 <= i < j < |Top(xs)| :: !Beats(Top(xs)[j], Top(xs)[i])
    ensures multiset(Top(xs)) <= multiset(xs)
    ensures forall kept, other | kept in Top(xs) && other in multiset(xs) - multiset(Top(xs)) :: !Beats(other, kept)
  {
    hide SortBy, RankKey, Beats, AtMost;
    var sorted := SortBy(xs, RankKey);
    SortKeepsMultiset(xs, RankKey);
    SameSize(sorted, xs);
    SortedByBeats(xs);
    var n := |Top(xs)|;
    assert sorted == Top(xs) + sorted[n..];
    assert multiset(sorted) == multiset(Top(xs)) + multiset(sorted[n..]);
    forall kept, other | kept in Top(xs) && other in multiset(xs) - multiset(Top(xs))
      ensures !Beats(other, kept)
    {
      var i :| 0 <= i < n && Top(xs)[i] == kept;
      assert other in multiset(sorted[n..]);
      var j :| 0 <= j < |sorted[n..]| && sorted[n..][j] == other;
      assert sorted[i] == kept && sorted[n + j] == other;
    }
  }

  lemma SortedByBeats(xs: seq<Ranked>)
    ensures forall i, j | 0 <= i < j < |SortBy(xs, RankKey)| :: !Beats(SortBy(xs, RankKey)[j], SortBy(xs, RankKey)[i])
  {
    hide SortBy, RankKey, Beats;
    SortSorts(xs, RankKey);
    var sorted := SortBy(xs, RankKey);
    forall i, j | 0 <= i < j < |sorted|
      ensures !Beats(sorted[j], sorted[i])
    {
      assert AtMost(RankKey(sorted[i]), RankKey(sorted[j]));
      KeysBeat(sorted[j], sorted[i]);
    }
  }

  lemma SameSize<T>(xs: seq<T>, ys: seq<T>)
    requires multiset(xs) == multiset(ys)
    ensures |xs| == |ys|
  {
    assert |multiset(xs)| == |xs| && |multiset(ys)| == |ys|;
  }

  /** A wanted gram counts eight in the tags, six in the source's name, five in the chapter's title, one in the text. */
  lemma HitsWeigh(q: Query, row: Row, other: string)
    ensures Score(q, row.(tags := other)) - Score(q, row) == 8 * (|q.wanted * q.grams(other)| - |q.wanted * q.grams(row.tags)|)
    ensures Score(q, row.(displayName := other)) - Score(q, row) ==
              6 * (|q.wanted * q.grams(other)| - |q.wanted * q.grams(row.displayName)|)
    ensures Score(q, row.(title := other)) - Score(q, row) == 5 * (|q.wanted * q.grams(other)| - |q.wanted * q.grams(row.title)|)
    ensures Score(q, row.(text := other)) - Score(q, row) == |q.wanted * q.grams(other)| - |q.wanted * q.grams(row.text)|
  {
  }
}
