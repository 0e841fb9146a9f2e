/** The collector that keeps only the best candidates while pages of rows stream by. */
module CandidateCollector {
  import opened Wrappers
  import opened Ordering
  import opened CorpusText
  import opened Retrieval

  function Candidates(xs: seq<Ranked>): (r: seq<Candidate>)
    ensures |r| == |xs|
  {
    seq(|xs|, i requires 0 <= i < |xs| => xs[i].candidate)
  }

  predicate Bounded(xs: seq<Ranked>) { forall x | x in xs :: 0 < |x.candidate.excerpt| <= EXCERPT_CHARS }

  lemma RatedBounded(q: Query, row: Row)
    ensures Rate(q, row).Some? ==> 0 < |Rate(q, row).value.candidate.excerpt| <= EXCERPT_CHARS
  {
    hide Score, Lead, End;
  }

  /** The top is one of the rated entries each. */
  lemma TopHas(xs: seq<Ranked>, x: Ranked)
    requires x in Top(xs)
    ensures x in xs
  {
    hide SortBy;
    SortKeepsElements(xs, RankKey);
  }

  lemma TopShort(xs: seq<Ranked>)
    ensures |Top(xs)| <= MAX_CANDIDATES
  {
  }

  lemma EmptyTop()
    ensures Top([]) == []
  {
  }

  lemma {:induction false} NothingWanted(q: Query, rows: seq<Row>)
    requires q.wanted == {}
    ensures Rated(q, rows) == []
  {
    if rows != [] {
      NothingWanted(q, rows[..|rows| - 1]);
      assert forall s: set<string> :: q.wanted * s == {};
      assert Score(q, rows[|rows| - 1]) == 0;
    }
  }

  lemma RatedStep(q: Query, rows: seq<Row>, i: nat)
    requires i < |rows|
    ensures Rated(q, rows[..i + 1]) ==
              if Rate(q, rows[i]).Some? then Rated(q, rows[..i]) + [Rate(q, rows[i]).value] else Rated(q, rows[..i])
  {
    hide Rate;
    assert rows[..i + 1][..i] == rows[..i];
  }

  /** How long all the excerpts are together. */
  function TotalChars(xs: seq<Candidate>): nat {
    if xs == [] then 0 else TotalChars(xs[..|xs| - 1]) + |xs[|xs| - 1].excerpt|
  }

  lemma {:induction false} TotalBound(xs: seq<Ranked>)
    requires Bounded(xs)
    ensures TotalChars(Candidates(xs)) <= |xs| * EXCERPT_CHARS
  {
    if xs != [] {
      var n := |xs| - 1;
      assert xs[n] in xs;
      TotalBound(xs[..n]);
      assert Candidates(xs)[..n] == Candidates(xs[..n]);
    }
  }

  lemma TotalStep(xs: seq<Ranked>, i: nat)
    requires i < |xs|
    ensures Candidates(xs[..i + 1]) == Candidates(xs[..i]) + [xs[i].candidate]
    ensures TotalChars(Candidates(xs[..i + 1])) == TotalChars(Candidates(xs[..i])) + |xs[i].candidate.excerpt|
  {
    assert Candidates(xs[..i + 1]) == Candidates(xs[..i]) + [xs[i].candidate];
    assert Candidates(xs[..i + 1])[..i] == Candidates(xs[..i]);
  }

  class CorpusCandidateCollector {
    const query: Query
    var ranked: seq<Ranked>
    /** Every entry rated since the start. */
    ghost var scored: seq<Ranked>

    ghost predicate Valid()
      reads this
    {
      QueryOk(query) && ranked == Top(scored) && Bounded(scored)
    }

    constructor (q: Query)
      requires QueryOk(q)
      ensures Valid() && query == q && scored == []
    {
      query, ranked, scored := q, [], [];
      new;
      EmptyTop();
    }

    /** Rates one row; rows without text, score or excerpt are passed over. */
    method RateRow(row: Row) returns (entry: Option<Ranked>)
      requires QueryOk(query)
      ensures entry == Rate(query, row)
    {
      hide Strip, Lead, RawWindow, Score;
      if row.text == "" {
        return None;
      }
      var score := Score(query, row);
      if score == 0 {
        return None;
      }
      var hit := query.hit(row.text);
      if hit.None? {
        return None;
      }
      var start, end, excerpt := BestWindow(row.text, hit.value, query.space);
      if excerpt == "" {
        return None;
      }
      entry := Some(Ranked(score, row.fragmentId,
                           Candidate(row.fragmentId, row.chapterStart + start, row.chapterStart + end, excerpt, row.origin)));
    }

    /** After any page the ranked entries are the best of everything rated so far. */
    method AddRows(rows: seq<Row>) returns (ok: bool)
      requires Valid()
      modifies this
      ensures Valid()
      ensures ok <==> |rows| <= MAX_PAGE_ROWS
      ensures scored == if ok then old(scored) + Rated(query, rows) else old(scored)
    {
      hide Top, SortBy, Rate, Rated, QueryOk;
      if |rows| > MAX_PAGE_ROWS {
        return false;
      }
      ok := true;
      if query.wanted == {} {
        NothingWanted(query, rows);
        assert scored + [] == scored;
        return;
      }
      NoneRated(query);
      assert rows[..0] == [] && scored + [] == scored;
      for i := 0 to |rows|
        invariant QueryOk(query) && ranked == Top(scored) && Bounded(scored)
        invariant scored == old(scored) + Rated(query, rows[..i])
      {
        var entry := RateRow(rows[i]);
        RatedStep(query, rows, i);
        if entry.Some? {
          RatedBounded(query, rows[i]);
          TopOfTop(scored, entry.value);
          AppendRated(old(scored), Rated(query, rows[..i]), entry.value);
          scored := scored + [entry.value];
          ranked := SortBy(ranked + [entry.value], RankKey);
          CutIsTop(Top(scored[..|scored| - 1]) + [entry.value]);
          assert scored[..|scored| - 1] + [entry.value] == scored;
          if |ranked| > MAX_CANDIDATES {
            ranked := ranked[..MAX_CANDIDATES];
          }
        }
      }
      assert rows[..|rows|] == rows;
    }

    /** The character budget never drops a ranked candidate. */
    method Result() returns (result: seq<Candidate>)
      requires Valid()
      ensures result == Candidates(Top(scored)) && |result| <= MAX_CANDIDATES
      ensures TotalChars(result) <= MAX_TOTAL_CHARS
    {
      hide Top;
      result := [];
      var usedChars := 0;
      TopShort(scored);
      TopBounded(scored);
      assert ranked[..0] == [];
      for i := 0 to |ranked|
        invariant result == Candidates(ranked[..i]) && usedChars == TotalChars(result)
        invariant usedChars <= i * EXCERPT_CHARS
      {
        var candidate := ranked[i].candidate;
        assert ranked[i] in ranked;
        TotalStep(ranked, i);
        if usedChars + |candidate.excerpt| <= MAX_TOTAL_CHARS {
          result := result + [candidate];
          usedChars := usedChars + |candidate.excerpt|;
        }
      }
      assert ranked[..|ranked|] == ranked;
    }
  }

  lemma NoneRated(q: Query)
    ensures Rated(q, []) == []
  {
  }

  lemma AppendRated(a: seq<Ranked>, b: seq<Ranked>, x: Ranked)
    ensures a + b + [x] == a + (b + [x])
  {
  }

  lemma CutIsTop(xs: seq<Ranked>)
    ensures Top(xs) == if |SortBy(xs, RankKey)| > MAX_CANDIDATES then SortBy(xs, RankKey)[..MAX_CANDIDATES] else SortBy(xs, RankKey)
  {
    hide SortBy;
  }

  lemma TopBounded(xs: seq<Ranked>)
    requires Bounded(xs)
    ensures Bounded(Top(xs))
  {
    hide Top;
    forall x | x in Top(xs)
      ensures x in xs
    {
      TopHas(xs, x);
    }
  }

  // ----- paging -----

  function AllRows(pages: seq<seq<Row>>): seq<Row> {
    if pages == [] then [] else AllRows(pages[..|pages| - 1]) + pages[|pages| - 1]
  }

  /** What the collector holds after the pages, one after the other. */
  function Fed(q: Query, pages: seq<seq<Row>>): seq<Ranked> {
    if pages == [] then [] else Top(Fed(q, pages[..|pages| - 1]) + Rated(q, pages[|pages| - 1]))
  }

  /** However the rows are paged, the collector ends with the first twenty of the stable sort of all. */
  lemma {:induction false} PagingIsInvisible(q: Query, pages: seq<seq<Row>>)
    ensures Fed(q, pages) == Top(Rated(q, AllRows(pages)))
  {
    hide Top, Rate;
    if pages == [] {
      EmptyTop();
    } else {
      var n := |pages| - 1;
      PagingIsInvisible(q, pages[..n]);
      RatedConcat(q, AllRows(pages[..n]), pages[n]);
      TopOfTops(Rated(q, AllRows(pages[..n])), Rated(q, pages[n]));
    }
  }
}
