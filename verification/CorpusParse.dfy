/** Parsing a source into chapters whose recorded ranges are true. */
module CorpusParse {
  import opened Wrappers
  import opened CorpusText
  import opened Utf8
  import opened CorpusChapters

  /** A source with the library functions its parser relies on. */
  datatype World = World(source: Source, decode: seq<byte> -> Option<string>, nfc: Composer, space: Spaces)

  ghost predicate WorldOk(w: World) {
    && ComposerOk(w.nfc)
    && (forall t: string :: w.decode(Encode(t, w.source.codec)) == Some(t))
    && (w.source.marked ==> forall t: string | t != "" && UTF8_BOM <= Encode(t, w.source.codec) :: t[0] == BOM)
  }

  datatype Span = Span(start: nat, end: nat, title: string)

  datatype Chapter = Chapter(order: nat, title: string, rawStart: nat, rawEnd: nat, start: int, end: int, text: string)

  /** Headings start lines, in order, and never with a byte-order mark. */
  predicate HeadsOk(text: string, heads: seq<nat>) {
    && (forall i | 0 <= i < |heads| :: LineStart(text, heads[i]) && heads[i] < |text|)
    && (forall i, j | 0 <= i < j < |heads| :: heads[i] < heads[j])
  }

  predicate LineStart(text: string, p: nat) {
    p < |text| ==> (p == 0 || (text[p - 1] == '\n' && text[p] != BOM))
  }

  function WholeCore(w: World): string { Core(w.source.text, w.nfc) }

  /** The normalised text of the whole source. */
  function Whole(w: World): string { Strip(WholeCore(w), w.space) }

  function HeadSpans(text: string, heads: seq<nat>, titles: nat -> string): (r: seq<Span>)
    ensures |r| == |heads|
  {
    seq(|heads|, i requires 0 <= i < |heads| =>
          Span(heads[i], if i + 1 < |heads| then heads[i + 1] else |text|, titles(heads[i])))
  }

  /** One span per heading, one before them when there is text, one for all when there is no heading. */
  function Spans(w: World, heads: seq<nat>, titles: nat -> string): seq<Span>
    requires HeadsOk(w.source.text, heads)
  {
    var text := w.source.text;
    if heads == [] then [Span(0, |text|, "全文")]
    else
      (if Strip(Core(text[..heads[0]], w.nfc), w.space) != "" then [Span(0, heads[0], "前言")] else [])
        + HeadSpans(text, heads, titles)
  }

  /** Spans start lines, follow each other without a gap and end with the text. */
  predicate SpansOk(text: string, spans: seq<Span>) {
    && spans != [] && spans[|spans| - 1].end == |text|
    && (forall i | 0 <= i < |spans| :: spans[i].start < spans[i].end <= |text| && LineStart(text, spans[i].start))
    && (forall i | 0 <= i < |spans| - 1 :: spans[i].end == spans[i + 1].start)
  }

  // ----- what a span becomes -----

  /** How much of the normalised core lies before a position. */
  function CoreAt(w: World, p: nat): nat
    requires p <= |w.source.text|
  {
    |Core(w.source.text[..p], w.nfc)|
  }

  function RawStart(s: Source, p: nat): nat
    requires p <= |s.text|
  {
    if p == 0 then 0 else Offset(s, p)
  }

  function RawEnd(s: Source, q: nat): nat
    requires q <= |s.text|
  {
    if q == |s.text| then |RawBytes(s)| else Offset(s, q)
  }

  /** Strict decoding; with the signature codec a leading byte-order mark is dropped. */
  function DecodeRaw(w: World, raw: seq<byte>): Option<string> {
    if w.source.marked && UTF8_BOM <= raw then w.decode(raw[3..]) else w.decode(raw)
  }

  function SpanCore(w: World, span: Span): string
    requires span.start <= span.end <= |w.source.text|
  {
    Core(w.source.text[span.start..span.end], w.nfc)
  }

  function ChapterOf(w: World, span: Span, order: nat): Chapter
    requires span.start <= span.end <= |w.source.text|
  {
    var core := SpanCore(w, span);
    var base := CoreAt(w, span.start) - Lead(WholeCore(w), w.space);
    Chapter(order, span.title, RawStart(w.source, span.start), RawEnd(w.source, span.end),
            base + Lead(core, w.space), base + End(core, w.space), Strip(core, w.space))
  }

  predicate SpansInText(w: World, spans: seq<Span>) {
    forall i | 0 <= i < |spans| :: spans[i].start <= spans[i].end <= |w.source.text|
  }

  /** The chapters of the spans that hold any text, numbered from one. */
  function ChaptersOf(w: World, spans: seq<Span>): seq<Chapter>
    requires SpansInText(w, spans)
  {
    if spans == [] then []
    else
      var rest := ChaptersOf(w, spans[..|spans| - 1]);
      var last := spans[|spans| - 1];
      if Strip(SpanCore(w, last), w.space) == "" then rest else rest + [ChapterOf(w, last, |rest| + 1)]
  }

  // ----- spans -----

  lemma SpansAreOk(w: World, heads: seq<nat>, titles: nat -> string)
    requires HeadsOk(w.source.text, heads) && w.source.text != "" && WorldOk(w)
    ensures SpansOk(w.source.text, Spans(w, heads, titles))
  {
    hide Core, Strip, WorldOk;
    var text := w.source.text;
    var spans := Spans(w, heads, titles);
    if heads != [] {
      if heads[0] == 0 {
        assert text[..0] == "";
        EmptyPreface(w);
      }
    }
  }

  lemma EmptyPreface(w: World)
    requires WorldOk(w)
    ensures Strip(Core("", w.nfc), w.space) == ""
  {
    EmptyCore(w.nfc);
  }

  // ----- cutting the core -----

  /** The core of the text between two line starts is the cut of the whole core between their cursors. */
  lemma CoreCut(w: World, p: nat, q: nat)
    requires WorldOk(w) && p <= q <= |w.source.text|
    requires LineStart(w.source.text, p) && LineStart(w.source.text, q)
    ensures CoreAt(w, p) + |Core(w.source.text[p..q], w.nfc)| == CoreAt(w, q) <= |WholeCore(w)|
    ensures WholeCore(w)[CoreAt(w, p)..CoreAt(w, q)] == Core(w.source.text[p..q], w.nfc)
  {
    hide Core, ComposerOk;
    var text := w.source.text;
    CoreJoins(w, text[..q], p);
    assert text[..q][..p] == text[..p] && text[..q][p..] == text[p..q];
    CoreJoins(w, text, q);
  }

  lemma CoreJoins(w: World, text: string, p: nat)
    requires WorldOk(w) && p <= |text| && LineStart(text, p)
    ensures Core(text, w.nfc) == Core(text[..p], w.nfc) + Core(text[p..], w.nfc)
  {
    hide Core, ComposerOk;
    EmptyCore(w.nfc);
    assert text == text[..p] + text[p..];
    if p == |text| {
      assert text[p..] == "" && text[..p] == text;
    } else if p == 0 {
      assert text[..p] == "" && text[p..] == text;
    } else {
      CoreSplits(text[..p], text[p..], w.nfc);
    }
  }

  // ----- decoding raw slices -----

  /** The raw bytes recorded for a span decode to exactly its text. */
  lemma RawSliceDecodes(w: World, span: Span)
    requires WorldOk(w) && span.start < span.end <= |w.source.text| && LineStart(w.source.text, span.start)
    ensures RawStart(w.source, span.start) <= RawEnd(w.source, span.end) <= |RawBytes(w.source)|
    ensures DecodeRaw(w, RawBytes(w.source)[RawStart(w.source, span.start)..RawEnd(w.source, span.end)])
              == Some(w.source.text[span.start..span.end])
  {
    hide Encode, ComposerOk, RawBytes;
    var s := w.source;
    var text := s.text[span.start..span.end];
    OffsetsCutRaw(s, span.start, span.end);
    assert RawEnd(s, span.end) == Offset(s, span.end);
    if span.start == 0 {
      FirstSlice(s, span.end);
      assert (Mark(s) + Encode(text, s.codec))[|Mark(s)|..] == Encode(text, s.codec);
    }
  }

  lemma FirstSlice(s: Source, q: nat)
    requires q <= |s.text|
    ensures Offset(s, q) <= |RawBytes(s)| && RawBytes(s)[..Offset(s, q)] == Mark(s) + Encode(s.text[0..q], s.codec)
  {
    hide Encode;
    assert s.text == s.text[..q] + s.text[q..];
    assert s.text[0..q] == s.text[..q];
    EncodeSplits(s.text[..q], s.text[q..], s.codec);
  }

  // ----- chapters as slices of the whole -----

  predicate ChapterTrue(w: World, c: Chapter) {
    && 0 <= c.start < c.end <= |Whole(w)|
    && c.text == Whole(w)[c.start..c.end]
    && c.rawStart <= c.rawEnd <= |RawBytes(w.source)|
    && var exact := DecodeRaw(w, RawBytes(w.source)[c.rawStart..c.rawEnd]);
       exact.Some? && Strip(Core(exact.value, w.nfc), w.space) == c.text
  }

  lemma SlicesAgree(text: string, l: nat, e: nat, a: nat, b: nat, i: nat, j: nat)
    requires a <= b <= |text| && i <= j <= b - a && l <= a + i && a + j <= e <= |text|
    ensures text[l..e][a + i - l..a + j - l] == text[a..b][i..j]
  {
    SliceOfSlice(text, l, e, a + i - l, a + j - l);
    SliceOfSlice(text, a, b, i, j);
  }

  lemma SliceOfSlice(text: string, l: nat, e: nat, x: nat, y: nat)
    requires l <= e <= |text| && x <= y <= e - l
    ensures text[l..e][x..y] == text[l + x..l + y]
  {
    var outer := text[l..e];
    forall k | 0 <= k < y - x
      ensures outer[x..y][k] == text[l + x..l + y][k]
    {
      assert outer[x..y][k] == outer[x + k];
    }
    assert outer[x..y] == text[l + x..l + y];
  }

  lemma InkIsKept(text: string, space: Spaces, k: nat)
    requires k < |text| && !space(text[k])
    ensures Lead(text, space) <= k < End(text, space)
  {
    LeadIs(text, space);
    EndIs(text, space);
  }

  lemma CutStandsInside(core: string, space: Spaces, a: nat, b: nat)
    requires a <= b <= |core| && Strip(core[a..b], space) != ""
    ensures Lead(core, space) <= a + Lead(core[a..b], space) < a + End(core[a..b], space) <= End(core, space)
  {
    hide Lead, End, Strip;
    var cut := core[a..b];
    StripIs(cut, space);
    var i, j := Lead(cut, space), End(cut, space);
    assert cut[i] == core[a + i] && cut[j - 1] == core[a + j - 1];
    InkIsKept(core, space, a + i);
    InkIsKept(core, space, a + j - 1);
  }

  lemma CutsOfTrimmed(core: string, space: Spaces, a: nat, b: nat)
    requires a <= b <= |core| && Strip(core[a..b], space) != ""
    ensures Lead(core, space) <= a + Lead(core[a..b], space) < a + End(core[a..b], space) <= End(core, space)
    ensures |Strip(core, space)| == End(core, space) - Lead(core, space)
    ensures Strip(core, space)[a + Lead(core[a..b], space) - Lead(core, space)..a + End(core[a..b], space) - Lead(core, space)]
              == Strip(core[a..b], space)
  {
    hide Lead, End;
    CutStandsInside(core, space, a, b);
    SlicesAgree(core, Lead(core, space), End(core, space), a, b, Lead(core[a..b], space), End(core[a..b], space));
  }

  /** A span with text gives a chapter that is the recorded slice of the normalised whole, inside the span's part of it. */
  lemma SpanChapterTrue(w: World, span: Span, order: nat)
    requires WorldOk(w) && span.start < span.end <= |w.source.text|
    requires LineStart(w.source.text, span.start) && LineStart(w.source.text, span.end)
    requires Strip(SpanCore(w, span), w.space) != ""
    ensures ChapterTrue(w, ChapterOf(w, span, order))
    ensures var c := ChapterOf(w, span, order);
            CoreAt(w, span.start) <= c.start + Lead(WholeCore(w), w.space) && c.end + Lead(WholeCore(w), w.space) <= CoreAt(w, span.end)
  {
    hide Core, Lead, End, ComposerOk, Encode, RawBytes, DecodeRaw;
    CoreCut(w, span.start, span.end);
    CutsOfTrimmed(WholeCore(w), w.space, CoreAt(w, span.start), CoreAt(w, span.end));
    RawSliceDecodes(w, span);
  }

  /** What a prefix of good spans looks like. */
  predicate PrefixOk(text: string, spans: seq<Span>) {
    && (forall i | 0 <= i < |spans| ::
          spans[i].start < spans[i].end <= |text| && LineStart(text, spans[i].start) && LineStart(text, spans[i].end))
    && (forall i | 0 <= i < |spans| - 1 :: spans[i].end == spans[i + 1].start)
  }

  lemma SpansArePrefixOk(text: string, spans: seq<Span>)
    requires SpansOk(text, spans)
    ensures PrefixOk(text, spans)
  {
    forall i | 0 <= i < |spans|
      ensures LineStart(text, spans[i].end)
    {
      if i < |spans| - 1 {
        assert LineStart(text, spans[i + 1].start);
      }
    }
  }

  lemma PrefixOkShorter(w: World, spans: seq<Span>)
    requires PrefixOk(w.source.text, spans) && spans != []
    ensures PrefixOk(w.source.text, spans[..|spans| - 1]) && SpansInText(w, spans)
  {
  }

  /** The chapters so far end before this position. */
  predicate EndBy(w: World, chapters: seq<Chapter>, p: nat)
    requires p <= |w.source.text|
  {
    forall i | 0 <= i < |chapters| ::
      chapters[i].end + Lead(WholeCore(w), w.space) <= CoreAt(w, p) && chapters[i].rawEnd <= Offset(w.source, p)
  }

  predicate InOrder(chapters: seq<Chapter>) {
    && (forall i | 0 <= i < |chapters| :: chapters[i].order == i + 1)
    && (forall i, j | 0 <= i < j < |chapters| :: chapters[i].end <= chapters[j].start && chapters[i].rawEnd <= chapters[j].rawStart)
  }

  lemma EndByLater(w: World, chapters: seq<Chapter>, p: nat, q: nat)
    requires WorldOk(w) && p <= q <= |w.source.text| && EndBy(w, chapters, p)
    requires LineStart(w.source.text, p) && LineStart(w.source.text, q)
    ensures EndBy(w, chapters, q)
  {
    hide Core, Lead, Encode, ComposerOk, RawBytes;
    CoreCut(w, p, q);
    OffsetsCutRaw(w.source, p, q);
  }

  lemma ChapterEndBy(w: World, span: Span, order: nat)
    requires WorldOk(w) && span.start < span.end <= |w.source.text|
    requires LineStart(w.source.text, span.start) && LineStart(w.source.text, span.end)
    requires Strip(SpanCore(w, span), w.space) != ""
    ensures EndBy(w, [ChapterOf(w, span, order)], span.end)
    ensures span.start == 0 || ChapterOf(w, span, order).rawStart == Offset(w.source, span.start)
  {
    hide Core, Lead, End, Encode, ComposerOk, RawBytes, ChapterTrue, WholeCore, SpanCore;
    SpanChapterTrue(w, span, order);
    OffsetsCutRaw(w.source, span.end, span.end);
  }

  /** Every chapter is a true slice, the chapters are numbered and in order, in the whole and in the raw bytes. */
  lemma {:induction false} ChaptersTrueInOrder(w: World, spans: seq<Span>)
    requires WorldOk(w) && PrefixOk(w.source.text, spans) && SpansInText(w, spans)
    ensures forall i | 0 <= i < |ChaptersOf(w, spans)| :: ChapterTrue(w, ChaptersOf(w, spans)[i])
    ensures InOrder(ChaptersOf(w, spans))
    ensures if spans == [] then ChaptersOf(w, spans) == [] else EndBy(w, ChaptersOf(w, spans), spans[|spans| - 1].end)
  {
    hide WorldOk, ChapterTrue, ChapterOf, SpanCore, Strip, EndBy, InOrder;
    if spans == [] {
      assert InOrder([]) by { EmptyInOrder(); }
    } else {
      var n := |spans| - 1;
      var last := spans[n];
      PrefixOkShorter(w, spans);
      ChaptersTrueInOrder(w, spans[..n]);
      var rest := ChaptersOf(w, spans[..n]);
      NothingEndBy(w, last.start);
      if n > 0 {
        assert spans[..n][n - 1].end == last.start;
      }
      assert EndBy(w, rest, last.start);
      EndByLater(w, rest, last.start, last.end);
      if Strip(SpanCore(w, last), w.space) != "" {
        var c := ChapterOf(w, last, |rest| + 1);
        SpanChapterTrue(w, last, |rest| + 1);
        ChapterEndBy(w, last, |rest| + 1);
        ChapterNumber(w, last, |rest| + 1);
        AppendInOrder(w, rest, c, last);
      }
    }
  }

  lemma EmptyInOrder()
    ensures InOrder([])
  {
  }

  lemma NothingEndBy(w: World, p: nat)
    requires p <= |w.source.text|
    ensures EndBy(w, [], p)
  {
  }

  lemma ChapterNumber(w: World, span: Span, order: nat)
    requires span.start <= span.end <= |w.source.text|
    ensures ChapterOf(w, span, order).order == order
  {
  }

  lemma AppendInOrder(w: World, rest: seq<Chapter>, c: Chapter, span: Span)
    requires span.start <= span.end <= |w.source.text|
    requires InOrder(rest) && EndBy(w, rest, span.start) && EndBy(w, rest, span.end) && EndBy(w, [c], span.end)
    requires c.order == |rest| + 1
    requires CoreAt(w, span.start) <= c.start + Lead(WholeCore(w), w.space)
    requires rest != [] ==> span.start == 0 || c.rawStart == Offset(w.source, span.start)
    requires span.start == 0 ==> rest == []
    ensures InOrder(rest + [c]) && EndBy(w, rest + [c], span.end)
  {
    hide CoreAt, WholeCore, Lead, Offset;
    assert [c][0] == c;
  }

  /** A position of the whole lies in one of the chapters. */
  predicate InChapter(chapters: seq<Chapter>, k: int) { exists i | 0 <= i < |chapters| :: chapters[i].start <= k < chapters[i].end }

  // ----- nothing but whitespace is left out -----

  /** Every position of the core before the cursor is whitespace or lies in a chapter. */
  predicate CoveredTo(w: World, chapters: seq<Chapter>, cursor: nat)
    requires cursor <= |WholeCore(w)|
  {
    forall p | 0 <= p < cursor :: w.space(WholeCore(w)[p]) || InChapter(chapters, p - Lead(WholeCore(w), w.space))
  }

  lemma BlankCovers(w: World, p: nat, q: nat, chapters: seq<Chapter>)
    requires WorldOk(w) && p <= q <= |w.source.text| && LineStart(w.source.text, p) && LineStart(w.source.text, q)
    requires CoreAt(w, p) <= |WholeCore(w)| && CoveredTo(w, chapters, CoreAt(w, p))
    requires Strip(Core(w.source.text[p..q], w.nfc), w.space) == ""
    ensures CoreAt(w, q) <= |WholeCore(w)| && CoveredTo(w, chapters, CoreAt(w, q))
  {
    hide Core, Lead, End, ComposerOk, Strip, WorldOk, InChapter;
    CoreCut(w, p, q);
    var cut := Core(w.source.text[p..q], w.nfc);
    StripIs(cut, w.space);
    forall k | CoreAt(w, p) <= k < CoreAt(w, q)
      ensures w.space(WholeCore(w)[k])
    {
      assert cut[k - CoreAt(w, p)] in cut;
    }
  }

  lemma InMore(chapters: seq<Chapter>, c: Chapter, k: int)
    ensures InChapter(chapters, k) || c.start <= k < c.end ==> InChapter(chapters + [c], k)
  {
    if c.start <= k < c.end {
      assert (chapters + [c])[|chapters|] == c;
    } else if InChapter(chapters, k) {
      var i :| 0 <= i < |chapters| && chapters[i].start <= k < chapters[i].end;
      assert (chapters + [c])[i] == chapters[i];
    }
  }

  lemma CutCovers(w: World, span: Span, chapters: seq<Chapter>, order: nat)
    requires WorldOk(w) && span.start <= span.end <= |w.source.text|
    requires LineStart(w.source.text, span.start) && LineStart(w.source.text, span.end)
    requires CoreAt(w, span.start) <= |WholeCore(w)| && CoveredTo(w, chapters, CoreAt(w, span.start))
    ensures CoreAt(w, span.end) <= |WholeCore(w)|
    ensures CoveredTo(w, chapters + [ChapterOf(w, span, order)], CoreAt(w, span.end))
  {
    hide Core, Lead, End, ComposerOk, Strip, WorldOk, InChapter, RawBytes, Offset;
    var c := ChapterOf(w, span, order);
    var cut := SpanCore(w, span);
    var a := CoreAt(w, span.start);
    CoreCut(w, span.start, span.end);
    LeadIs(cut, w.space);
    EndIs(cut, w.space);
    forall p | 0 <= p < CoreAt(w, span.end)
      ensures w.space(WholeCore(w)[p]) || InChapter(chapters + [c], p - Lead(WholeCore(w), w.space))
    {
      InMore(chapters, c, p - Lead(WholeCore(w), w.space));
      if a <= p {
        assert WholeCore(w)[p] == cut[p - a];
      }
    }
  }

  lemma {:induction false} ChaptersCoverTo(w: World, spans: seq<Span>)
    requires WorldOk(w) && PrefixOk(w.source.text, spans) && SpansInText(w, spans) && spans != []
    requires Strip(Core(w.source.text[..spans[0].start], w.nfc), w.space) == ""
    ensures CoreAt(w, spans[|spans| - 1].end) <= |WholeCore(w)|
    ensures CoveredTo(w, ChaptersOf(w, spans), CoreAt(w, spans[|spans| - 1].end))
  {
    hide WorldOk, ChapterOf, Core, Strip, CoveredTo, WholeCore;
    var n := |spans| - 1;
    var last := spans[n];
    PrefixOkShorter(w, spans);
    if n == 0 {
      GapCovers(w, last.start);
    } else {
      assert spans[..n][0] == spans[0];
      ChaptersCoverTo(w, spans[..n]);
      assert spans[..n][n - 1].end == last.start;
    }
    var rest := ChaptersOf(w, spans[..n]);
    if Strip(SpanCore(w, last), w.space) == "" {
      BlankCovers(w, last.start, last.end, rest);
    } else {
      CutCovers(w, last, rest, |rest| + 1);
    }
  }

  lemma GapCovers(w: World, p: nat)
    requires WorldOk(w) && p <= |w.source.text| && LineStart(w.source.text, p)
    requires Strip(Core(w.source.text[..p], w.nfc), w.space) == ""
    ensures CoreAt(w, p) <= |WholeCore(w)| && CoveredTo(w, [], CoreAt(w, p))
  {
    hide Core, Lead, Strip, ComposerOk, WorldOk;
    CoreCut(w, 0, p);
    StartsAtZero(w);
    assert w.source.text[0..p] == w.source.text[..p];
    BlankCovers(w, 0, p, []);
  }

  lemma StartsAtZero(w: World)
    requires WorldOk(w)
    ensures CoreAt(w, 0) == 0
  {
    EmptyCore(w.nfc);
    assert w.source.text[..0] == "";
  }

  // ----- the theorem about parsed chapters -----

  /** The chapters the parser should return. */
  function Parsed(w: World, heads: seq<nat>, titles: nat -> string): seq<Chapter>
    requires HeadsOk(w.source.text, heads)
  {
    if Whole(w) == "" || !SpansInText(w, Spans(w, heads, titles)) then [] else ChaptersOf(w, Spans(w, heads, titles))
  }

  lemma GapIsBlank(w: World, heads: seq<nat>, titles: nat -> string)
    requires HeadsOk(w.source.text, heads) && WorldOk(w)
    ensures Strip(Core(w.source.text[..Spans(w, heads, titles)[0].start], w.nfc), w.space) == ""
  {
    hide Core, Strip, WorldOk;
    EmptyPreface(w);
    assert w.source.text[..0] == "";
  }

  lemma SpansFit(w: World, spans: seq<Span>)
    requires SpansOk(w.source.text, spans)
    ensures SpansInText(w, spans)
  {
  }

  lemma AllOfText(w: World)
    ensures CoreAt(w, |w.source.text|) == |WholeCore(w)|
  {
    assert w.source.text[..|w.source.text|] == w.source.text;
  }

  lemma BlankSourceIsBlank(w: World)
    requires WorldOk(w) && Whole(w) != ""
    ensures w.source.text != ""
  {
    EmptyPreface(w);
  }

  /** Chapters are true slices in order, and outside them the normalised text is only whitespace. */
  lemma ChaptersPartitionTheText(w: World, heads: seq<nat>, titles: nat -> string)
    requires WorldOk(w) && HeadsOk(w.source.text, heads)
    ensures var chapters := Parsed(w, heads, titles);
            && (forall i | 0 <= i < |chapters| :: ChapterTrue(w, chapters[i]))
            && InOrder(chapters)
            && (forall k | 0 <= k < |Whole(w)| :: w.space(Whole(w)[k]) || InChapter(chapters, k))
  {
    hide WorldOk, HeadsOk, Core, ChapterTrue, ChapterOf, SpanCore, Strip, EndBy, InOrder, Spans, Lead, End, InChapter;
    hide ChaptersOf, SpansOk, PrefixOk;
    hide SpansInText, CoveredTo;
    EmptyInOrder();
    if Whole(w) != "" {
      var spans := Spans(w, heads, titles);
      BlankSourceIsBlank(w);
      SpansAreOk(w, heads, titles);
      SpansFit(w, spans);
      SpansArePrefixOk(w.source.text, spans);
      ChaptersTrueInOrder(w, spans);
      GapIsBlank(w, heads, titles);
      SpansEnd(w, spans);
      ChaptersCoverTo(w, spans);
      AllOfText(w);
      WholeCovered(w, ChaptersOf(w, spans));
    }
  }

  lemma SpansEnd(w: World, spans: seq<Span>)
    requires SpansOk(w.source.text, spans)
    ensures spans != [] && spans[|spans| - 1].end == |w.source.text|
  {
  }

  lemma WholeCovered(w: World, chapters: seq<Chapter>)
    requires CoveredTo(w, chapters, |WholeCore(w)|)
    ensures forall k | 0 <= k < |Whole(w)| :: w.space(Whole(w)[k]) || InChapter(chapters, k)
  {
    hide Core, Lead, End, InChapter;
    forall k | 0 <= k < |Whole(w)|
      ensures w.space(Whole(w)[k]) || InChapter(chapters, k)
    {
      assert Whole(w)[k] == WholeCore(w)[k + Lead(WholeCore(w), w.space)];
    }
  }
}
