/**
  What the byte machine computes: for every way of cutting a stream into
  chunks it accepts exactly the streams the batch reading accepts, with the
  same text.  Section 9.2.6 of the WHATWG HTML Living Standard, "Interpreting
  an event stream", ends a line at CR LF, LF or CR and dispatches at a blank
  line; the parser also bounds events and demands a final `[DONE]`.
*/
module SseMeaning {
  import opened Wrappers
  import opened Utf8
  import opened Sse

  // ----- bounds -----

  /** Bytes held back by the pending data lines, each with the terminator it had. */
  function Pending(lines: seq<string>): nat {
    if lines == [] then 0 else Length(lines[0]) + 1 + Pending(lines[1..])
  }

  predicate Bounded(s: State) {
    && |s.line| + Pending(s.dataLines) + (if s.sawCr then 1 else 0) <= s.eventBytes <= MAX_EVENT_BYTES
    && s.eventLines <= MAX_EVENT_LINES
    && (s.done ==> !s.sawCr && s.dataLines == [])
  }

  /** Just before a line is finished its terminator has been counted too. */
  predicate Finishable(s: State) {
    && |s.line| + Pending(s.dataLines) + 1 <= s.eventBytes <= MAX_EVENT_BYTES
    && s.eventLines <= MAX_EVENT_LINES && !s.sawCr && (s.done ==> s.dataLines == [])
  }

  lemma {:induction false} PendingAppend(lines: seq<string>, x: string)
    ensures Pending(lines + [x]) == Pending(lines) + Length(x) + 1
  {
    if lines != [] {
      PendingAppend(lines[1..], x);
      assert (lines + [x])[1..] == lines[1..] + [x];
    }
  }

  lemma {:induction false} JoinedLength(lines: seq<string>)
    ensures lines != [] ==> Length(Join(lines)) + 1 == Pending(lines)
  {
    if |lines| > 1 {
      JoinedLength(lines[1..]);
      LengthConcat(lines[0] + "\n", Join(lines[1..]));
      LengthConcat(lines[0], "\n");
    }
  }

  lemma DataFieldShorter(line: string)
    requires DataField(line).Some?
    ensures Length(DataField(line).value) <= Length(line)
  {
    LengthOfDrop(line, if |line| == 4 then 4 else if |line| > 5 && line[5] == ' ' then 6 else 5);
  }

  /** The size check in the dispatch can never fail. */
  lemma RecheckNeverFires(s: State)
    requires Bounded(s) || Finishable(s)
    ensures s.dataLines != [] ==> Length(Join(s.dataLines)) <= MAX_EVENT_BYTES
  {
    JoinedLength(s.dataLines);
  }

  lemma FinishLineBounded(payload: Payload, s: State)
    requires Finishable(s) && FinishLine(payload, s).Some?
    ensures Bounded(FinishLine(payload, s).value.state)
    ensures FinishLine(payload, s).value.state.line == [] && !FinishLine(payload, s).value.state.sawCr
  {
    if s.line != [] && !IsComment(Decode(s.line).value) {
      var line := Decode(s.line).value;
      DataFieldShorter(line);
      PendingAppend(s.dataLines, DataField(line).value);
    }
  }

  lemma PlainByteBounded(payload: Payload, s: State, b: byte)
    requires Bounded(s) && !s.sawCr && PlainByte(payload, s, b).Some?
    ensures Bounded(PlainByte(payload, s, b).value.state)
  {
    if b == LF {
      FinishLineBounded(payload, CountByte(s).value);
    }
  }

  lemma OneByteBounded(payload: Payload, s: State, b: byte)
    requires Bounded(s) && OneByte(payload, s, b).Some?
    ensures Bounded(OneByte(payload, s, b).value.state)
  {
    var t := s.(sawCr := false);
    if !s.sawCr {
      PlainByteBounded(payload, s, b);
    } else if b == LF {
      FinishLineBounded(payload, CountByte(t).value);
    } else {
      FinishLineBounded(payload, t);
      PlainByteBounded(payload, FinishLine(payload, t).value.state, b);
    }
  }

  /** Held bytes never exceed the event count, and the event count never exceeds the limit. */
  lemma {:induction false} FeedBounded(payload: Payload, s: State, bytes: seq<byte>)
    requires Bounded(s) && FeedBytes(payload, s, bytes).Some?
    ensures Bounded(FeedBytes(payload, s, bytes).value.state)
  {
    if bytes != [] {
      FeedBounded(payload, s, bytes[..|bytes| - 1]);
      OneByteBounded(payload, FeedBytes(payload, s, bytes[..|bytes| - 1]).value.state, bytes[|bytes| - 1]);
    }
  }

  /** When `finish` succeeds, the line it flushed carried no text. */
  lemma FinishDiscardsNothing(payload: Payload, s: State)
    requires Finishes(payload, s)
    ensures Settle(payload, s).value.texts == []
  {
  }

  // ----- chunks -----

  lemma {:induction false} FeedConcat(payload: Payload, s: State, a: seq<byte>, b: seq<byte>)
    ensures var fa := FeedBytes(payload, s, a);
            FeedBytes(payload, s, a + b) ==
              if fa.None? then None else Then(fa, FeedBytes(payload, fa.value.state, b))
    decreases |b|
  {
    if b == [] {
      assert a + b == a;
      var fa := FeedBytes(payload, s, a);
      assert fa.Some? ==> fa.value.texts + [] == fa.value.texts;
    } else {
      var n := |b| - 1;
      FeedConcat(payload, s, a, b[..n]);
      assert (a + b)[..|a| + n] == a + b[..n] && (a + b)[|a| + n] == b[n];
      var fa := FeedBytes(payload, s, a);
      if fa.Some? {
        var fb := FeedBytes(payload, fa.value.state, b[..n]);
        if fb.Some? {
          ThenAssociative(fa, fb, OneByte(payload, fb.value.state, b[n]));
        }
      }
    }
  }

  lemma ThenAssociative(a: Option<Step>, b: Option<Step>, c: Option<Step>)
    ensures Then(Then(a, b), c) == Then(a, Then(b, c))
  {
    if a.Some? && b.Some? && c.Some? {
      assert (a.value.texts + b.value.texts) + c.value.texts == a.value.texts + (b.value.texts + c.value.texts);
    }
  }

  function FeedChunks(payload: Payload, s: State, chunks: seq<seq<byte>>): Option<Step>
    decreases |chunks|
  {
    if chunks == [] then Some(Step(s, []))
    else
      var first := FeedChunk(payload, s, chunks[0]);
      if first.None? then None else Then(first, FeedChunks(payload, first.value.state, chunks[1..]))
  }

  function Concat(chunks: seq<seq<byte>>): seq<byte> {
    if chunks == [] then [] else chunks[0] + Concat(chunks[1..])
  }

  /** A finished parser refuses any further byte, at the head of a chunk or inside one. */
  lemma {:induction false} DoneRefuses(payload: Payload, s: State, bytes: seq<byte>)
    requires Bounded(s) && s.done && bytes != []
    ensures FeedBytes(payload, s, bytes).None?
    decreases |bytes|
  {
    if |bytes| > 1 {
      DoneRefuses(payload, s, bytes[..|bytes| - 1]);
    } else {
      assert bytes[..0] == [];
    }
  }

  lemma ChunkIsBytes(payload: Payload, s: State, chunk: seq<byte>)
    requires Bounded(s)
    ensures FeedChunk(payload, s, chunk) == FeedBytes(payload, s, chunk)
  {
    if s.done && chunk != [] {
      DoneRefuses(payload, s, chunk);
    }
  }

  /** However the stream is cut, the feeds accept, emit and end as one feed of the whole does. */
  lemma {:induction false} ChunkingIsInvisible(payload: Payload, s: State, chunks: seq<seq<byte>>)
    requires Bounded(s)
    ensures FeedChunks(payload, s, chunks) == FeedChunk(payload, s, Concat(chunks))
    decreases |chunks|
  {
    ChunkIsBytes(payload, s, Concat(chunks));
    if chunks != [] {
      ChunkIsBytes(payload, s, chunks[0]);
      FeedConcat(payload, s, chunks[0], Concat(chunks[1..]));
      var first := FeedBytes(payload, s, chunks[0]);
      if first.Some? {
        FeedBounded(payload, s, chunks[0]);
        ChunkingIsInvisible(payload, first.value.state, chunks[1..]);
        ChunkIsBytes(payload, first.value.state, Concat(chunks[1..]));
      }
    }
  }
}
