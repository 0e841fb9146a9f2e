/** The chapter parser of `parse_chapters`: one pass with two cursors. */
module CorpusParser {
  import opened Wrappers
  import opened CorpusText
  import opened CorpusChapters
  import opened CorpusParse

  method ChapterSpans(w: World, heads: seq<nat>, titles: nat -> string) returns (spans: seq<Span>)
    requires HeadsOk(w.source.text, heads)
    ensures spans == Spans(w, heads, titles)
  {
    hide Core, Strip;
    var text := w.source.text;
    if heads == [] {
      return [Span(0, |text|, "全文")];
    }
    spans := [];
    if Strip(Core(text[..heads[0]], w.nfc), w.space) != "" {
      spans := [Span(0, heads[0], "前言")];
    }
    ghost var preface := spans;
    for i := 0 to |heads|
      invariant spans == preface + HeadSpans(text, heads, titles)[..i]
    {
      var end := if i + 1 < |heads| then heads[i + 1] else |text|;
      spans := spans + [Span(heads[i], end, titles(heads[i]))];
    }
    assert HeadSpans(text, heads, titles)[..|heads|] == HeadSpans(text, heads, titles);
  }

  /** The boundaries of all spans, in order. */
  method Boundaries(spans: seq<Span>) returns (boundaries: seq<int>)
    ensures forall i | 0 <= i < |spans| :: spans[i].start in boundaries && spans[i].end in boundaries
    ensures forall b | b in boundaries :: exists i | 0 <= i < |spans| :: b == spans[i].start || b == spans[i].end
  {
    boundaries := [];
    for i := 0 to |spans|
      invariant forall k | 0 <= k < i :: spans[k].start in boundaries && spans[k].end in boundaries
      invariant forall b | b in boundaries :: exists k | 0 <= k < i :: b == spans[k].start || b == spans[k].end
    {
      boundaries := boundaries + [spans[i].start, spans[i].end];
    }
  }

  predicate Located(w: World, span: Span, offsets: map<int, nat>) {
    && span.start <= span.end <= |w.source.text|
    && span.start in offsets && offsets[span.start] == Offset(w.source, span.start)
    && span.end in offsets && offsets[span.end] == Offset(w.source, span.end)
  }

  method Locate(w: World, spans: seq<Span>) returns (offsets: map<int, nat>)
    requires PrefixOk(w.source.text, spans)
    ensures forall i | 0 <= i < |spans| :: Located(w, spans[i], offsets)
  {
    hide Offset;
    var boundaries := Boundaries(spans);
    var built := BuildByteOffsets(w.source, boundaries);
    offsets := built.value;
  }

  predicate SpanOk(w: World, span: Span) {
    span.start < span.end <= |w.source.text| && LineStart(w.source.text, span.start) && LineStart(w.source.text, span.end)
  }

  /** One span, with the cursor standing at its start: its chapter, if it holds text, and the cursor at its end. */
  method ParseSpan(w: World, span: Span, offsets: map<int, nat>, coreCursor: nat, order: nat)
    returns (chapter: Option<Chapter>, cursor: nat)
    requires WorldOk(w) && SpanOk(w, span) && Located(w, span, offsets)
    requires coreCursor == CoreAt(w, span.start)
    ensures chapter == if Strip(SpanCore(w, span), w.space) == "" then None else Some(ChapterOf(w, span, order))
    ensures cursor == CoreAt(w, span.end)
  {
    hide WorldOk, Core, Strip, ChapterOf, Encode, RawBytes, Lead, End, WholeCore, DecodeRaw, Offset;
    var rawStart := if span.start == 0 then 0 else offsets[span.start];
    var rawEnd := if span.end == |w.source.text| then |RawBytes(w.source)| else offsets[span.end];
    RawSliceDecodes(w, span);
    CoreCut(w, span.start, span.end);
    ChapterFields(w, span, order);
    var exact := DecodeRaw(w, RawBytes(w.source)[rawStart..rawEnd]).value;
    var chapterCore := Core(exact, w.nfc);
    chapter := None;
    if Strip(chapterCore, w.space) != "" {
      var leadingTrim := Lead(WholeCore(w), w.space);
      var start := coreCursor + Lead(chapterCore, w.space) - leadingTrim;
      var end := coreCursor + End(chapterCore, w.space) - leadingTrim;
      chapter := Some(Chapter(order, span.title, rawStart, rawEnd, start, end, Strip(chapterCore, w.space)));
    }
    cursor := coreCursor + |chapterCore|;
  }

  method ParseChapters(w: World, heads: seq<nat>, titles: nat -> string) returns (chapters: seq<Chapter>)
    requires WorldOk(w) && HeadsOk(w.source.text, heads)
    ensures chapters == Parsed(w, heads, titles)
  {
    hide WorldOk, HeadsOk, Core, Strip, Spans, ChapterOf, ChaptersOf, SpansOk, PrefixOk, WholeCore, Located, CoreAt;
    hide LineStart, SpanCore;
    if Whole(w) == "" {
      return [];
    }
    var spans := ChapterSpans(w, heads, titles);
    BlankSourceIsBlank(w);
    SpansAreOk(w, heads, titles);
    SpansFit(w, spans);
    SpansArePrefixOk(w.source.text, spans);
    var offsets := Locate(w, spans);
    var sourceCursor, coreCursor := 0, 0;
    chapters := [];
    StartsAtZero(w);
    NoChapters(w);
    assert spans[..0] == [];
    for i := 0 to |spans|
      invariant sourceCursor == if i == 0 then 0 else spans[i - 1].end
      invariant sourceCursor <= |w.source.text| && coreCursor == CoreAt(w, sourceCursor)
      invariant SpansInText(w, spans[..i]) && chapters == ChaptersOf(w, spans[..i])
    {
      var span := spans[i];
      CursorStep(w, spans, i, sourceCursor);
      coreCursor := coreCursor + |Core(w.source.text[sourceCursor..span.start], w.nfc)|;
      var chapter, cursor := ParseSpan(w, span, offsets, coreCursor, |chapters| + 1);
      NextChapters(w, spans, i);
      if chapter.Some? {
        chapters := chapters + [chapter.value];
      }
      coreCursor := cursor;
      sourceCursor := span.end;
    }
    assert spans[..|spans|] == spans;
  }

  lemma NoChapters(w: World)
    ensures SpansInText(w, []) && ChaptersOf(w, []) == []
  {
  }

  lemma CursorStep(w: World, spans: seq<Span>, i: nat, sourceCursor: nat)
    requires WorldOk(w) && PrefixOk(w.source.text, spans) && i < |spans|
    requires sourceCursor == if i == 0 then 0 else spans[i - 1].end
    ensures sourceCursor <= spans[i].start <= |w.source.text| && SpanOk(w, spans[i])
    ensures CoreAt(w, sourceCursor) + |Core(w.source.text[sourceCursor..spans[i].start], w.nfc)| == CoreAt(w, spans[i].start)
  {
    hide WorldOk, Core;
    CoreCut(w, sourceCursor, spans[i].start);
  }

  lemma NextChapters(w: World, spans: seq<Span>, i: nat)
    requires i < |spans| && SpansInText(w, spans)
    ensures SpansInText(w, spans[..i]) && SpansInText(w, spans[..i + 1])
    ensures var rest := ChaptersOf(w, spans[..i]);
            ChaptersOf(w, spans[..i + 1]) ==
              if Strip(SpanCore(w, spans[i]), w.space) == "" then rest else rest + [ChapterOf(w, spans[i], |rest| + 1)]
  {
    hide ChapterOf, Core, Strip;
    assert spans[..i + 1][..i] == spans[..i];
  }

  lemma ChapterFields(w: World, span: Span, order: nat)
    requires span.start <= span.end <= |w.source.text|
    ensures var c := ChapterOf(w, span, order);
            var core := SpanCore(w, span);
            var base := CoreAt(w, span.start) - Lead(WholeCore(w), w.space);
            && c.order == order && c.title == span.title
            && c.rawStart == RawStart(w.source, span.start) && c.rawEnd == RawEnd(w.source, span.end)
            && c.start == base + Lead(core, w.space) && c.end == base + End(core, w.space)
            && c.text == Strip(core, w.space)
  {
    hide Core, Strip, Lead, End;
  }
}
