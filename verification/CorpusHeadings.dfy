/** Every heading starts a chapter of its own: the parsed chapters read off the headings, one by one. */
module CorpusHeadings {
  import opened Wrappers
  import opened CorpusText
  import opened CorpusChapters
  import opened CorpusParse

  /** The text between two positions, normalised. */
  function TextIn(w: World, p: nat, q: nat): string
    requires p <= q <= |w.source.text|
  {
    Strip(Core(w.source.text[p..q], w.nfc), w.space)
  }

  /** Where the section of the i-th heading ends: at the next heading, or with the text. */
  function SectionEnd(w: World, heads: seq<nat>, i: nat): nat {
    if i + 1 < |heads| then heads[i + 1] else |w.source.text|
  }

  /** How many sections before the i-th heading's hold any text, the one before all headings included. */
  function FullBefore(w: World, heads: seq<nat>, i: nat): nat
    requires HeadsOk(w.source.text, heads) && i <= |heads| && heads != []
  {
    if i == 0 then (if TextIn(w, 0, heads[0]) == "" then 0 else 1)
    else FullBefore(w, heads, i - 1) + if TextIn(w, heads[i - 1], SectionEnd(w, heads, i - 1)) == "" then 0 else 1
  }

  /** The chapter holds the text from p to q under its title, and its raw bytes decode to exactly that text. */
  ghost predicate Holds(w: World, c: Chapter, p: nat, q: nat, title: string)
    requires p <= q <= |w.source.text|
  {
    && c.title == title && c.text == TextIn(w, p, q)
    && c.rawStart <= c.rawEnd <= |RawBytes(w.source)|
    && c.rawStart == (if p == 0 then 0 else Offset(w.source, p))
    && c.rawEnd == (if q == |w.source.text| then |RawBytes(w.source)| else Offset(w.source, q))
    && DecodeRaw(w, RawBytes(w.source)[c.rawStart..c.rawEnd]) == Some(w.source.text[p..q])
  }

  // ----- chapters of spans -----

  function FullSpans(w: World, spans: seq<Span>, n: nat): nat
    requires SpansInText(w, spans) && n <= |spans|
  {
    if n == 0 then 0 else FullSpans(w, spans, n - 1) + if Strip(SpanCore(w, spans[n - 1]), w.space) == "" then 0 else 1
  }

  lemma {:induction false} FullPrefix(w: World, spans: seq<Span>, m: nat, n: nat)
    requires SpansInText(w, spans) && n <= m <= |spans|
    ensures SpansInText(w, spans[..m]) && FullSpans(w, spans[..m], n) == FullSpans(w, spans, n)
  {
    hide Strip, SpanCore;
    if n > 0 {
      FullPrefix(w, spans, m, n - 1);
    }
  }

  /** A span that holds text is the chapter whose place is the number of such spans before it. */
  lemma {:induction false} ChapterOfSpan(w: World, spans: seq<Span>, i: nat)
    requires SpansInText(w, spans) && i <= |spans|
    ensures |ChaptersOf(w, spans)| == FullSpans(w, spans, |spans|)
    ensures i < |spans| && Strip(SpanCore(w, spans[i]), w.space) != "" ==>
              && FullSpans(w, spans, i) < |ChaptersOf(w, spans)|
              && ChaptersOf(w, spans)[FullSpans(w, spans, i)] == ChapterOf(w, spans[i], FullSpans(w, spans, i) + 1)
    decreases |spans|
  {
    hide Strip, SpanCore, ChapterOf;
    if spans != [] {
      var n := |spans| - 1;
      FullPrefix(w, spans, n, n);
      if i <= n {
        ChapterOfSpan(w, spans[..n], i);
        FullPrefix(w, spans, n, i);
      } else {
        ChapterOfSpan(w, spans[..n], n);
      }
    }
  }

  lemma SpanHolds(w: World, span: Span, order: nat)
    requires WorldOk(w) && span.start < span.end <= |w.source.text| && LineStart(w.source.text, span.start)
    ensures Holds(w, ChapterOf(w, span, order), span.start, span.end, span.title)
    ensures ChapterOf(w, span, order).order == order
  {
    hide WorldOk, Core, Strip, Encode, RawBytes, DecodeRaw, Offset, LineStart, Lead, End;
    RawSliceDecodes(w, span);
  }

  // ----- the sections of the headings -----

  lemma SpansByHeading(w: World, heads: seq<nat>, titles: nat -> string, i: nat)
    requires HeadsOk(w.source.text, heads) && heads != [] && i < |heads|
    ensures var spans := Spans(w, heads, titles);
            var front := if TextIn(w, 0, heads[0]) == "" then 0 else 1;
            && |spans| == front + |heads|
            && (front == 1 ==> spans[0] == Span(0, heads[0], "前言"))
            && spans[front + i] == Span(heads[i], SectionEnd(w, heads, i), titles(heads[i]))
  {
    hide Core, Strip;
    assert w.source.text[..heads[0]] == w.source.text[0..heads[0]];
  }

  lemma {:induction false} CountsAgree(w: World, heads: seq<nat>, titles: nat -> string, i: nat)
    requires HeadsOk(w.source.text, heads) && heads != [] && i <= |heads| && SpansInText(w, Spans(w, heads, titles))
    ensures var front := if TextIn(w, 0, heads[0]) == "" then 0 else 1;
            && front + i <= |Spans(w, heads, titles)|
            && FullSpans(w, Spans(w, heads, titles), front + i) == FullBefore(w, heads, i)
  {
    hide Core, Strip, Spans, HeadsOk;
    var spans := Spans(w, heads, titles);
    SpansByHeading(w, heads, titles, if i == 0 then 0 else i - 1);
    if i > 0 {
      CountsAgree(w, heads, titles, i - 1);
    }
  }

  /** With no text there is no section that holds any. */
  lemma BlankEverywhere(w: World, p: nat, q: nat)
    requires WorldOk(w) && Whole(w) == "" && p <= q <= |w.source.text|
    requires LineStart(w.source.text, p) && LineStart(w.source.text, q)
    ensures TextIn(w, p, q) == ""
  {
    hide Core, Strip, WorldOk;
    CoreCut(w, p, q);
    StripIs(WholeCore(w), w.space);
    StripIs(Core(w.source.text[p..q], w.nfc), w.space);
    assert forall c | c in WholeCore(w)[CoreAt(w, p)..CoreAt(w, q)] :: c in WholeCore(w);
  }

  lemma HeadsStartLines(w: World, heads: seq<nat>, i: nat)
    requires HeadsOk(w.source.text, heads) && i < |heads|
    ensures heads[i] < SectionEnd(w, heads, i) <= |w.source.text|
    ensures LineStart(w.source.text, heads[i]) && LineStart(w.source.text, SectionEnd(w, heads, i)) && LineStart(w.source.text, 0)
  {
  }

  lemma {:induction false} NothingFull(w: World, heads: seq<nat>, i: nat)
    requires WorldOk(w) && HeadsOk(w.source.text, heads) && heads != [] && i <= |heads| && Whole(w) == ""
    ensures FullBefore(w, heads, i) == 0
  {
    hide WorldOk, TextIn, HeadsOk, Whole;
    HeadsStartLines(w, heads, if i == 0 then 0 else i - 1);
    if i == 0 {
      BlankEverywhere(w, 0, heads[0]);
    } else {
      NothingFull(w, heads, i - 1);
      BlankEverywhere(w, heads[i - 1], SectionEnd(w, heads, i - 1));
    }
  }

  lemma ParsedSpans(w: World, heads: seq<nat>, titles: nat -> string)
    requires WorldOk(w) && HeadsOk(w.source.text, heads) && Whole(w) != ""
    ensures var spans := Spans(w, heads, titles);
            SpansOk(w.source.text, spans) && SpansInText(w, spans) && Parsed(w, heads, titles) == ChaptersOf(w, spans)
  {
    hide WorldOk, HeadsOk, Core, Strip, Spans, SpansOk, SpansInText;
    BlankSourceIsBlank(w);
    SpansAreOk(w, heads, titles);
    SpansFit(w, Spans(w, heads, titles));
  }

  /** A span of the parse that holds text is the chapter at its place. */
  lemma SpanIsChapter(w: World, heads: seq<nat>, titles: nat -> string, k: nat)
    requires WorldOk(w) && HeadsOk(w.source.text, heads) && Whole(w) != ""
    requires SpansInText(w, Spans(w, heads, titles)) && k < |Spans(w, heads, titles)|
    ensures var spans := Spans(w, heads, titles);
            var chapters := Parsed(w, heads, titles);
            var n := FullSpans(w, spans, k);
            && |chapters| == FullSpans(w, spans, |spans|)
            && (TextIn(w, spans[k].start, spans[k].end) != "" ==>
                  n < |chapters| && chapters[n].order == n + 1
                  && Holds(w, chapters[n], spans[k].start, spans[k].end, spans[k].title))
  {
    hide WorldOk, HeadsOk, Core, Strip, Spans, Holds, ChapterOf, ChaptersOf, FullSpans, Whole, Parsed;
    var spans := Spans(w, heads, titles);
    ParsedSpans(w, heads, titles);
    ChapterOfSpan(w, spans, k);
    SpanHolds(w, spans[k], FullSpans(w, spans, k) + 1);
  }

  lemma SectionIsChapter(w: World, heads: seq<nat>, titles: nat -> string, i: nat)
    requires WorldOk(w) && HeadsOk(w.source.text, heads) && i < |heads| && Whole(w) != ""
    ensures var chapters := Parsed(w, heads, titles);
            var q := SectionEnd(w, heads, i);
            var n := FullBefore(w, heads, i);
            && |chapters| == FullBefore(w, heads, |heads|)
            && heads[i] < q <= |w.source.text|
            && (TextIn(w, heads[i], q) != "" ==>
                  n < |chapters| && chapters[n].order == n + 1 && Holds(w, chapters[n], heads[i], q, titles(heads[i])))
  {
    hide WorldOk, HeadsOk, Spans, Holds, FullSpans, Whole, TextIn, Parsed, SpansOk, FullBefore, SectionEnd, SpansInText;
    HeadsStartLines(w, heads, i);
    ParsedSpans(w, heads, titles);
    SpansByHeading(w, heads, titles, i);
    CountsAgree(w, heads, titles, i);
    CountsAgree(w, heads, titles, |heads|);
    HeadsStartLines(w, heads, 0);
    var k := (if TextIn(w, 0, heads[0]) == "" then 0 else 1) + i;
    assert Spans(w, heads, titles)[k] == Span(heads[i], SectionEnd(w, heads, i), titles(heads[i]));
    SpanIsChapter(w, heads, titles, k);
  }

  lemma PrefaceIsChapter(w: World, heads: seq<nat>, titles: nat -> string)
    requires WorldOk(w) && HeadsOk(w.source.text, heads) && heads != [] && Whole(w) != ""
    ensures var chapters := Parsed(w, heads, titles);
            TextIn(w, 0, heads[0]) != "" ==>
              |chapters| > 0 && chapters[0].order == 1 && Holds(w, chapters[0], 0, heads[0], "前言")
  {
    hide WorldOk, HeadsOk, Spans, Holds, FullSpans, Whole, TextIn, Parsed, SpansOk, FullBefore, SectionEnd;
    HeadsStartLines(w, heads, 0);
    ParsedSpans(w, heads, titles);
    SpansByHeading(w, heads, titles, 0);
    SpanIsChapter(w, heads, titles, 0);
    NoneBefore(w, Spans(w, heads, titles));
  }

  /**
    The i-th heading's section, if it holds any text, is the chapter whose number is one more
    than the sections with text before it, under the heading's title; there are no further chapters.
  */
  lemma HeadingsAreChapters(w: World, heads: seq<nat>, titles: nat -> string, i: nat)
    requires WorldOk(w) && HeadsOk(w.source.text, heads) && i < |heads|
    ensures var chapters := Parsed(w, heads, titles);
            var q := SectionEnd(w, heads, i);
            var n := FullBefore(w, heads, i);
            && |chapters| == FullBefore(w, heads, |heads|)
            && heads[i] < q <= |w.source.text|
            && (TextIn(w, heads[i], q) != "" ==>
                  n < |chapters| && chapters[n].order == n + 1 && Holds(w, chapters[n], heads[i], q, titles(heads[i])))
            && (TextIn(w, 0, heads[0]) != "" ==>
                  |chapters| > 0 && chapters[0].order == 1 && Holds(w, chapters[0], 0, heads[0], "前言"))
  {
    hide WorldOk, HeadsOk, Core, Strip, Spans, Holds, FullSpans, Whole, TextIn, Parsed, SpansOk, FullBefore, SectionEnd;
    HeadsStartLines(w, heads, i);
    HeadsStartLines(w, heads, 0);
    if Whole(w) == "" {
      NothingFull(w, heads, |heads|);
      BlankEverywhere(w, heads[i], SectionEnd(w, heads, i));
      BlankEverywhere(w, 0, heads[0]);
      NothingParsed(w, heads, titles);
    } else {
      SectionIsChapter(w, heads, titles, i);
      PrefaceIsChapter(w, heads, titles);
    }
  }

  lemma NothingParsed(w: World, heads: seq<nat>, titles: nat -> string)
    requires HeadsOk(w.source.text, heads) && Whole(w) == ""
    ensures Parsed(w, heads, titles) == []
  {
  }

  lemma NoneBefore(w: World, spans: seq<Span>)
    requires SpansInText(w, spans)
    ensures FullSpans(w, spans, 0) == 0
  {
  }

  /** A source without headings is one chapter, or none if it holds no text. */
  lemma NoHeadingsOneChapter(w: World, titles: nat -> string)
    requires WorldOk(w)
    ensures var chapters := Parsed(w, [], titles);
            if TextIn(w, 0, |w.source.text|) == "" then chapters == []
            else |chapters| == 1 && chapters[0].order == 1 && Holds(w, chapters[0], 0, |w.source.text|, "全文")
  {
    hide WorldOk, Core, Strip, Holds, ChaptersOf, Parsed;
    var span := Span(0, |w.source.text|, "全文");
    assert Spans(w, [], titles) == [span];
    assert w.source.text[0..|w.source.text|] == w.source.text;
    assert Whole(w) == TextIn(w, 0, |w.source.text|);
    if Whole(w) != "" {
      ParsedSpans(w, [], titles);
      SpanIsChapter(w, [], titles, 0);
    } else {
      NothingParsed(w, [], titles);
    }
  }
}
