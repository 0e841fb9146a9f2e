/** The batch reading of an event stream, and the proof that the byte machine computes it. */
module SseBatch {
  import opened Wrappers
  import opened Utf8
  import opened Sse
  import opened SseMeaning

  // ----- the batch reading -----

  /** A line and the width of the terminator that ended it. */
  datatype Line = Line(content: seq<byte>, width: nat)

  predicate IsBreak(b: byte) { b == CR || b == LF }

  function FirstBreak(s: seq<byte>): (i: nat)
    ensures i <= |s| && forall k | 0 <= k < i :: !IsBreak(s[k])
    ensures i < |s| ==> IsBreak(s[i])
  {
    if s == [] || IsBreak(s[0]) then 0 else 1 + FirstBreak(s[1..])
  }

  /** CR LF, CR and LF each end one line; what follows the last terminator is left over. */
  function SplitLines(s: seq<byte>): (seq<Line>, seq<byte>) {
    var i := FirstBreak(s);
    if i == |s| then ([], s)
    else
      var width := if s[i] == CR && i + 1 < |s| && s[i + 1] == LF then 2 else 1;
      var (lines, rest) := SplitLines(s[i + width..]);
      ([Line(s[..i], width)] + lines, rest)
  }

  function Weight(lines: seq<Line>): nat {
    if lines == [] then 0 else |lines[0].content| + lines[0].width + Weight(lines[1..])
  }

  /** The data values of an event's lines, without its comments. */
  function DataOf(lines: seq<Line>): Option<seq<string>> {
    if lines == [] then Some([])
    else
      var line, rest := Decode(lines[0].content), DataOf(lines[1..]);
      if line.None? || rest.None? then None
      else if IsComment(line.value) then rest
      else if DataField(line.value).None? then None
      else Some([DataField(line.value).value] + rest.value)
  }

  datatype Reply = Nothing | Text(text: string) | End

  function ReadEvent(payload: Payload, lines: seq<Line>, blank: Line): Option<Reply> {
    var data := DataOf(lines);
    if Weight(lines) + |blank.content| + blank.width > MAX_EVENT_BYTES || |lines| > MAX_EVENT_LINES || data.None? then None
    else if data.value == [] then Some(Nothing)
    else if Join(data.value) == "[DONE]" then Some(End)
    else
      match payload(Join(data.value))
      case None => None
      case Some(None) => Some(Nothing)
      case Some(Some(text)) => Some(Text(text))
  }

  function FirstBlank(lines: seq<Line>): (i: nat)
    ensures i <= |lines| && forall k | 0 <= k < i :: lines[k].content != []
    ensures i < |lines| ==> lines[i].content == []
  {
    if lines == [] || lines[0].content == [] then 0 else 1 + FirstBlank(lines[1..])
  }

  /** Events are the groups before blank lines; the last must be `[DONE]` and nothing may follow it. */
  function ReadEvents(payload: Payload, lines: seq<Line>): Option<seq<string>>
    decreases |lines|
  {
    var i := FirstBlank(lines);
    if i == |lines| then None
    else
      var rest := lines[i + 1..];
      match ReadEvent(payload, lines[..i], lines[i])
      case None => None
      case Some(End) => if rest == [] then Some([]) else None
      case Some(Nothing) => ReadEvents(payload, rest)
      case Some(Text(text)) =>
        var texts := ReadEvents(payload, rest);
        if texts.None? then None else Some([text] + texts.value)
  }

  function Batch(payload: Payload, bytes: seq<byte>): Option<seq<string>> {
    var (lines, rest) := SplitLines(bytes);
    if rest != [] then None else ReadEvents(payload, lines)
  }

  // ----- from bytes to lines -----

  predicate AtLineStart(s: State) { s.line == [] && !s.sawCr }

  /** Feeding a byte string and finishing the line its last CR left open. */
  function Whole(payload: Payload, s: State, bytes: seq<byte>): Option<Step> {
    var f := FeedBytes(payload, s, bytes);
    if f.None? then None else Then(f, Settle(payload, f.value.state))
  }

  /** A whole line at once. */
  function LineStep(payload: Payload, s: State, l: Line): Option<Step> {
    if s.done || s.eventBytes + |l.content| + l.width > MAX_EVENT_BYTES then None
    else FinishLine(payload, s.(line := l.content, eventBytes := s.eventBytes + |l.content| + l.width))
  }

  lemma {:induction false} FeedPlain(payload: Payload, s: State, bytes: seq<byte>)
    requires !s.sawCr && !s.done && s.eventBytes <= MAX_EVENT_BYTES
    requires forall k | 0 <= k < |bytes| :: !IsBreak(bytes[k])
    ensures FeedBytes(payload, s, bytes) ==
              if s.eventBytes + |bytes| > MAX_EVENT_BYTES then None
              else Some(Step(s.(line := s.line + bytes, eventBytes := s.eventBytes + |bytes|), []))
  {
    if bytes == [] {
      assert s.line + [] == s.line;
    } else {
      var n := |bytes| - 1;
      FeedPlain(payload, s, bytes[..n]);
      assert !IsBreak(bytes[n]);
      assert (s.line + bytes[..n]) + [bytes[n]] == s.line + bytes;
      NothingThen(s, OneByte(payload, s.(line := s.line + bytes[..n], eventBytes := s.eventBytes + n), bytes[n]));
    }
  }

  lemma FeedOne(payload: Payload, s: State, b: byte)
    ensures FeedBytes(payload, s, [b]) == OneByte(payload, s, b)
  {
    assert [b][..0] == [];
    var r := OneByte(payload, s, b);
    assert r.Some? ==> [] + r.value.texts == r.value.texts;
  }

  /** A CR not followed by LF ends its line just before the next byte. */
  lemma PendingCr(payload: Payload, s: State, bytes: seq<byte>)
    requires s.sawCr && bytes != [] && bytes[0] != LF
    ensures var ended := FinishLine(payload, s.(sawCr := false));
            FeedBytes(payload, s, bytes) ==
              if ended.None? then None else Then(ended, FeedBytes(payload, ended.value.state, bytes))
  {
    var t := s.(sawCr := false);
    var ended := FinishLine(payload, t);
    assert bytes == [bytes[0]] + bytes[1..];
    FeedConcat(payload, s, [bytes[0]], bytes[1..]);
    FeedOne(payload, s, bytes[0]);
    if ended.Some? {
      FinishLeavesLineStart(payload, t);
      FeedConcat(payload, ended.value.state, [bytes[0]], bytes[1..]);
      FeedOne(payload, ended.value.state, bytes[0]);
      var first := PlainByte(payload, ended.value.state, bytes[0]);
      if first.Some? {
        ThenAssociative(ended, first, FeedBytes(payload, first.value.state, bytes[1..]));
      }
    }
  }

  lemma FinishLeavesLineStart(payload: Payload, s: State)
    requires !s.sawCr && FinishLine(payload, s).Some?
    ensures AtLineStart(FinishLine(payload, s).value.state)
    ensures FinishLine(payload, s).value.state.eventBytes <= s.eventBytes
  {
  }

  function AndThen(payload: Payload, a: Option<Step>, rest: seq<byte>): Option<Step> {
    if a.None? then None else Then(a, Whole(payload, a.value.state, rest))
  }

  lemma WholeAfter(payload: Payload, s: State, a: seq<byte>, b: seq<byte>)
    ensures var fa := FeedBytes(payload, s, a);
            Whole(payload, s, a + b) == AndThen(payload, fa, b)
  {
    FeedConcat(payload, s, a, b);
    var fa := FeedBytes(payload, s, a);
    if fa.Some? {
      var fb := FeedBytes(payload, fa.value.state, b);
      if fb.Some? {
        ThenAssociative(fa, fb, Settle(payload, fb.value.state));
      }
    }
  }

  lemma EmptyWhole(payload: Payload, s: State)
    requires !s.sawCr
    ensures Whole(payload, s, []) == Some(Step(s, []))
  {
    NothingThen(s, Some(Step(s, [])));
  }

  lemma ThenNothing(a: Option<Step>)
    requires a.Some?
    ensures Then(a, Some(Step(a.value.state, []))) == a
  {
    assert a.value.texts + [] == a.value.texts;
  }

  lemma NothingThen(s: State, a: Option<Step>)
    ensures Then(Some(Step(s, [])), a) == a
  {
    if a.Some? {
      assert [] + a.value.texts == a.value.texts;
    }
  }

  /** Feeding a line with its terminator is one line step. */
  lemma FeedTerminated(payload: Payload, s: State, content: seq<byte>, b: byte)
    requires AtLineStart(s) && !s.done && s.eventBytes <= MAX_EVENT_BYTES && IsBreak(b)
    requires forall k | 0 <= k < |content| :: !IsBreak(content[k])
    ensures var f := FeedBytes(payload, s, content + [b]);
            if s.eventBytes + |content| + 1 > MAX_EVENT_BYTES then f.None?
            else if b == LF then f == LineStep(payload, s, Line(content, 1))
            else f == Some(Step(s.(line := content, sawCr := true, eventBytes := s.eventBytes + |content| + 1), []))
  {
    hide FinishLine, FeedBytes;
    FeedPlain(payload, s, content);
    FeedConcat(payload, s, content, [b]);
    assert s.line + content == content;
    if s.eventBytes + |content| <= MAX_EVENT_BYTES {
      var t := s.(line := content, eventBytes := s.eventBytes + |content|);
      FeedOne(payload, t, b);
      NothingThen(t, OneByte(payload, t, b));
    }
  }

  lemma TooLong(payload: Payload, s: State, content: seq<byte>)
    ensures s.eventBytes + |content| + 1 > MAX_EVENT_BYTES ==>
              LineStep(payload, s, Line(content, 1)).None? && LineStep(payload, s, Line(content, 2)).None?
  {
  }

  /** How many bytes the terminator takes that starts with `b`, given what follows it. */
  function TerminatorWidth(b: byte, rest: seq<byte>): nat { if b == CR && rest != [] && rest[0] == LF then 2 else 1 }

  /** After a pending CR the line is ended by that CR alone or with the LF that follows. */
  lemma AfterCr(payload: Payload, s: State, content: seq<byte>, u: State, rest: seq<byte>)
    requires AtLineStart(s) && !s.done && s.eventBytes + |content| + 1 <= MAX_EVENT_BYTES
    requires u == s.(line := content, sawCr := true, eventBytes := s.eventBytes + |content| + 1)
    ensures var width := TerminatorWidth(CR, rest);
            Whole(payload, u, rest) == AndThen(payload, LineStep(payload, s, Line(content, width)), rest[width - 1..])
  {
    hide FinishLine, FeedBytes, LineStep, Settle, Whole, AtLineStart, AndThen;
    assert rest[0..] == rest;
    if rest == [] {
      LoneCrAtEnd(payload, s, content, u);
    } else if rest[0] == LF {
      CrLf(payload, s, content, u, rest);
    } else {
      LoneCr(payload, s, content, u, rest);
    }
  }

  lemma WholeContent(payload: Payload, s: State, content: seq<byte>, b: byte, rest: seq<byte>)
    requires AtLineStart(s) && !s.done && s.eventBytes <= MAX_EVENT_BYTES && IsBreak(b)
    requires forall k | 0 <= k < |content| :: !IsBreak(content[k])
    ensures var width := TerminatorWidth(b, rest);
            Whole(payload, s, (content + [b]) + rest)
              == AndThen(payload, LineStep(payload, s, Line(content, width)), rest[width - 1..])
  {
    hide FinishLine, FeedBytes, LineStep, Settle, Whole, AtLineStart;
    WholeAfter(payload, s, content + [b], rest);
    FeedTerminated(payload, s, content, b);
    assert rest[0..] == rest;
    if s.eventBytes + |content| + 1 > MAX_EVENT_BYTES {
      TooLong(payload, s, content);
    } else if b == CR {
      var u := s.(line := content, sawCr := true, eventBytes := s.eventBytes + |content| + 1);
      NothingThen(u, Whole(payload, u, rest));
      AfterCr(payload, s, content, u, rest);
    }
  }

  lemma AroundBreak(bytes: seq<byte>, i: nat)
    requires i < |bytes|
    ensures bytes == (bytes[..i] + [bytes[i]]) + bytes[i + 1..]
    ensures bytes[i + 1..][0..] == bytes[i + 1..]
    ensures i + 1 < |bytes| ==> bytes[i + 1..][1..] == bytes[i + 2..]
  {
  }

  /** Up to and including its first terminator, the stream is one line. */
  lemma WholeLine(payload: Payload, s: State, bytes: seq<byte>)
    requires AtLineStart(s) && !s.done && s.eventBytes <= MAX_EVENT_BYTES
    requires FirstBreak(bytes) < |bytes|
    ensures var i := FirstBreak(bytes);
            var width := if bytes[i] == CR && i + 1 < |bytes| && bytes[i + 1] == LF then 2 else 1;
            Whole(payload, s, bytes) == AndThen(payload, LineStep(payload, s, Line(bytes[..i], width)), bytes[i + width..])
  {
    hide LineStep, Whole, AtLineStart, AndThen, IsBreak;
    var i := FirstBreak(bytes);
    var content, b, rest := bytes[..i], bytes[i], bytes[i + 1..];
    AroundBreak(bytes, i);
    WholeContent(payload, s, content, b, rest);
  }

  lemma LoneCrAtEnd(payload: Payload, s: State, content: seq<byte>, u: State)
    requires AtLineStart(s) && !s.done && s.eventBytes + |content| + 1 <= MAX_EVENT_BYTES
    requires u == s.(line := content, sawCr := true, eventBytes := s.eventBytes + |content| + 1)
    ensures Whole(payload, u, []) == AndThen(payload, LineStep(payload, s, Line(content, 1)), [])
  {
    var t := u.(sawCr := false);
    var ended := FinishLine(payload, t);
    NothingThen(u, ended);
    if ended.Some? {
      FinishLeavesLineStart(payload, t);
      EmptyWhole(payload, ended.value.state);
      ThenNothing(ended);
    }
  }

  lemma LoneCr(payload: Payload, s: State, content: seq<byte>, u: State, rest: seq<byte>)
    requires AtLineStart(s) && !s.done && s.eventBytes + |content| + 1 <= MAX_EVENT_BYTES
    requires u == s.(line := content, sawCr := true, eventBytes := s.eventBytes + |content| + 1)
    requires rest != [] && rest[0] != LF
    ensures Whole(payload, u, rest) == AndThen(payload, LineStep(payload, s, Line(content, 1)), rest)
  {
    hide FinishLine, FeedBytes, Settle;
    PendingCr(payload, u, rest);
    var ended := FinishLine(payload, u.(sawCr := false));
    if ended.Some? {
      var f := FeedBytes(payload, ended.value.state, rest);
      if f.Some? {
        ThenAssociative(ended, f, Settle(payload, f.value.state));
      }
    }
  }

  lemma CrLf(payload: Payload, s: State, content: seq<byte>, u: State, rest: seq<byte>)
    requires AtLineStart(s) && !s.done && s.eventBytes + |content| + 1 <= MAX_EVENT_BYTES
    requires u == s.(line := content, sawCr := true, eventBytes := s.eventBytes + |content| + 1)
    requires rest != [] && rest[0] == LF
    ensures Whole(payload, u, rest) == AndThen(payload, LineStep(payload, s, Line(content, 2)), rest[1..])
  {
    hide FeedBytes, Settle, Whole;
    assert rest == [LF] + rest[1..];
    WholeAfter(payload, u, [LF], rest[1..]);
    FeedOne(payload, u, LF);
  }

  // ----- from lines to events -----

  function RunLines(payload: Payload, s: State, lines: seq<Line>): Option<Step>
    decreases |lines|
  {
    if lines == [] then Some(Step(s, []))
    else
      var first := LineStep(payload, s, lines[0]);
      if first.None? then None else Then(first, RunLines(payload, first.value.state, lines[1..]))
  }

  /** A stream is its lines, and an unterminated remainder leaves the parser mid-line. */
  lemma {:induction false} WholeIsLines(payload: Payload, s: State, bytes: seq<byte>)
    requires AtLineStart(s) && Bounded(s)
    ensures var (lines, rest) := SplitLines(bytes);
            var w := Whole(payload, s, bytes);
            if rest == [] then w == RunLines(payload, s, lines)
            else w.Some? ==> !Complete(w.value.state)
    decreases |bytes|
  {
    var i := FirstBreak(bytes);
    if bytes == [] {
      EmptyWhole(payload, s);
    } else if s.done {
      DoneRefuses(payload, s, bytes);
    } else if i == |bytes| {
      FeedPlain(payload, s, bytes);
    } else {
      var width := if bytes[i] == CR && i + 1 < |bytes| && bytes[i + 1] == LF then 2 else 1;
      WholeLine(payload, s, bytes);
      var first := LineStep(payload, s, Line(bytes[..i], width));
      if first.Some? {
        LineStepBounded(payload, s, Line(bytes[..i], width));
        WholeIsLines(payload, first.value.state, bytes[i + width..]);
      }
    }
  }

  lemma LineStepBounded(payload: Payload, s: State, l: Line)
    requires AtLineStart(s) && Bounded(s) && l.width >= 1 && LineStep(payload, s, l).Some?
    ensures var t := LineStep(payload, s, l).value.state;
            AtLineStart(t) && Bounded(t)
  {
    FinishLineBounded(payload, s.(line := l.content, eventBytes := s.eventBytes + |l.content| + l.width));
  }

  predicate Terminated(lines: seq<Line>) { forall k | 0 <= k < |lines| :: lines[k].width >= 1 }

  lemma {:induction false} SplitTerminates(bytes: seq<byte>)
    ensures Terminated(SplitLines(bytes).0)
    decreases |bytes|
  {
    var i := FirstBreak(bytes);
    if i < |bytes| {
      var width := if bytes[i] == CR && i + 1 < |bytes| && bytes[i + 1] == LF then 2 else 1;
      SplitTerminates(bytes[i + width..]);
    }
  }

  /** The lines of an event before its blank line only collect. */
  lemma {:induction false} CollectLines(payload: Payload, s: State, lines: seq<Line>)
    requires AtLineStart(s) && Bounded(s) && !s.done && Terminated(lines)
    requires forall k | 0 <= k < |lines| :: lines[k].content != []
    ensures RunLines(payload, s, lines) ==
              if s.eventBytes + Weight(lines) > MAX_EVENT_BYTES || s.eventLines + |lines| > MAX_EVENT_LINES
                 || DataOf(lines).None? then None
              else Some(Step(s.(dataLines := s.dataLines + DataOf(lines).value, eventBytes := s.eventBytes + Weight(lines),
                                eventLines := s.eventLines + |lines|), []))
    decreases |lines|
  {
    hide Decode, DataField, IsComment, Dispatch, Length, Pending;
    if lines == [] {
      assert s.dataLines + [] == s.dataLines;
    } else {
      var first := LineStep(payload, s, lines[0]);
      if first.Some? {
        LineStepBounded(payload, s, lines[0]);
        CollectLines(payload, first.value.state, lines[1..]);
        NothingThen(first.value.state, RunLines(payload, first.value.state, lines[1..]));
        if DataOf(lines).Some? {
          CollectMore(s.dataLines, lines);
        }
      }
    }
  }

  lemma CollectMore(data: seq<string>, lines: seq<Line>)
    requires lines != [] && DataOf(lines).Some?
    ensures var line := Decode(lines[0].content).value;
            var rest := DataOf(lines[1..]).value;
            data + DataOf(lines).value == if IsComment(line) then data + rest else (data + [DataField(line).value]) + rest
  {
  }

  lemma {:induction false} RunLinesConcat(payload: Payload, s: State, a: seq<Line>, b: seq<Line>)
    ensures var ra := RunLines(payload, s, a);
            RunLines(payload, s, a + b) == if ra.None? then None else Then(ra, RunLines(payload, ra.value.state, b))
    decreases |a|
  {
    if a == [] {
      assert a + b == b;
      NothingThen(s, RunLines(payload, s, b));
    } else {
      assert (a + b)[1..] == a[1..] + b;
      var first := LineStep(payload, s, a[0]);
      if first.Some? {
        RunLinesConcat(payload, first.value.state, a[1..], b);
        var ra := RunLines(payload, first.value.state, a[1..]);
        if ra.Some? {
          ThenAssociative(first, ra, RunLines(payload, ra.value.state, b));
        }
      }
    }
  }

  function Collected(lines: seq<Line>): State
    requires DataOf(lines).Some?
  {
    START.(dataLines := DataOf(lines).value, eventBytes := Weight(lines), eventLines := |lines|)
  }

  predicate Fits(lines: seq<Line>) {
    Weight(lines) <= MAX_EVENT_BYTES && |lines| <= MAX_EVENT_LINES && DataOf(lines).Some?
  }

  function Answered(r: Option<Reply>): Option<Step> {
    match r
    case None => None
    case Some(Nothing) => Some(Step(START, []))
    case Some(End) => Some(Step(START.(done := true), []))
    case Some(Text(text)) => Some(Step(START, [text]))
  }

  /** The blank line of an event answers it and leaves a fresh parser. */
  lemma BlankStep(payload: Payload, lines: seq<Line>, blank: Line)
    requires Fits(lines) && Bounded(Collected(lines)) && blank.width >= 1 && blank.content == []
    ensures LineStep(payload, Collected(lines), blank) == Answered(ReadEvent(payload, lines, blank))
  {
    hide DataOf, Weight, Pending, Join, Length, DataField, IsComment, Decode;
    var s := Collected(lines);
    if s.eventBytes + blank.width <= MAX_EVENT_BYTES {
      RecheckNeverFires(s.(eventBytes := s.eventBytes + blank.width));
    }
  }

  lemma StartBounded()
    ensures Bounded(START)
  {
  }

  lemma CollectEvent(payload: Payload, lines: seq<Line>)
    requires Terminated(lines) && forall k | 0 <= k < |lines| :: lines[k].content != []
    ensures RunLines(payload, START, lines) == if Fits(lines) then Some(Step(Collected(lines), [])) else None
    ensures Fits(lines) ==> Bounded(Collected(lines))
  {
    hide DataOf, Weight, RunLines, Bounded;
    assert Bounded(START) by {
      StartBounded();
    }
    CollectLines(payload, START, lines);
    if Fits(lines) {
      assert [] + DataOf(lines).value == DataOf(lines).value;
      RunLinesBounded(payload, START, lines);
    }
  }

  lemma {:induction false} RunLinesBounded(payload: Payload, s: State, lines: seq<Line>)
    requires AtLineStart(s) && Bounded(s) && Terminated(lines) && RunLines(payload, s, lines).Some?
    ensures Bounded(RunLines(payload, s, lines).value.state)
    decreases |lines|
  {
    if lines != [] {
      LineStepBounded(payload, s, lines[0]);
      RunLinesBounded(payload, LineStep(payload, s, lines[0]).value.state, lines[1..]);
    }
  }

  /** One event, from a fresh parser to its blank line. */
  lemma RunEvent(payload: Payload, lines: seq<Line>, blank: Line)
    requires Terminated(lines) && blank.width >= 1 && blank.content == []
    requires forall k | 0 <= k < |lines| :: lines[k].content != []
    ensures RunLines(payload, START, lines + [blank]) == Answered(ReadEvent(payload, lines, blank))
  {
    hide Terminated, Collected, Answered, RunLines, LineStep, DataOf, Weight, Bounded, Join;
    CollectEvent(payload, lines);
    RunLinesConcat(payload, START, lines, [blank]);
    if Fits(lines) {
      LastLine(payload, Collected(lines), blank);
      NothingThen(Collected(lines), LineStep(payload, Collected(lines), blank));
      BlankStep(payload, lines, blank);
    } else {
      Unanswered(payload, lines, blank);
    }
  }

  lemma Unanswered(payload: Payload, lines: seq<Line>, blank: Line)
    requires !Fits(lines)
    ensures Answered(ReadEvent(payload, lines, blank)) == None
  {
  }

  lemma LastLine(payload: Payload, s: State, l: Line)
    ensures RunLines(payload, s, [l]) == LineStep(payload, s, l)
  {
    var first := LineStep(payload, s, l);
    if first.Some? {
      ThenNothing(first);
    }
  }

  lemma {:induction false} LinesAreEvents(payload: Payload, lines: seq<Line>)
    requires Terminated(lines)
    ensures var r, e := RunLines(payload, START, lines), ReadEvents(payload, lines);
            && (e.Some? <==> r.Some? && Complete(r.value.state))
            && (e.Some? ==> r.value.texts == e.value)
    decreases |lines|
  {
    var i := FirstBlank(lines);
    if i == |lines| {
      CollectLines(payload, START, lines);
    } else {
      var head, rest := lines[..i], lines[i + 1..];
      assert lines == (head + [lines[i]]) + rest;
      RunEvent(payload, head, lines[i]);
      RunLinesConcat(payload, START, head + [lines[i]], rest);
      match ReadEvent(payload, head, lines[i])
      case None =>
      case Some(End) =>
      case Some(Nothing) =>
        LinesAreEvents(payload, rest);
        NothingThen(START, RunLines(payload, START, rest));
      case Some(Text(text)) =>
        LinesAreEvents(payload, rest);
    }
  }

  /**
    However a stream is cut into chunks, feeding them and finishing succeeds
    exactly when the batch reading does, and emits the batch's text.
  */
  lemma StreamMeansBatch(payload: Payload, chunks: seq<seq<byte>>)
    ensures var f, batch := FeedChunks(payload, START, chunks), Batch(payload, Concat(chunks));
            && (batch.Some? <==> f.Some? && Finishes(payload, f.value.state))
            && (batch.Some? ==> f.value.texts == batch.value)
  {
    var bytes := Concat(chunks);
    ChunkingIsInvisible(payload, START, chunks);
    ChunkIsBytes(payload, START, bytes);
    WholeIsLines(payload, START, bytes);
    SplitTerminates(bytes);
    LinesAreEvents(payload, SplitLines(bytes).0);
    var f := FeedBytes(payload, START, bytes);
    if f.Some? && Finishes(payload, f.value.state) {
      FinishDiscardsNothing(payload, f.value.state);
      assert f.value.texts + [] == f.value.texts;
    }
  }
}
