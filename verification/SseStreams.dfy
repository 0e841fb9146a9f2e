/**
  Streams as a provider writes them, byte by byte, and what the parser makes of
  them: every way of writing a data line, every newline, every chunking.
*/
module SseStreams {
  import opened Wrappers
  import opened Utf8
  import opened Sse
  import opened SseMeaning
  import opened SseBatch

  // ----- written streams -----

  /** A line of an event: a value after "data: " or "data:", the bare field name, or a comment. */
  datatype Written = Spaced(value: string) | Tight(value: string) | Bare | Remark(text: string)

  function TextOf(w: Written): string {
    match w
    case Spaced(x) => "data: " + x
    case Tight(x) => "data:" + x
    case Bare => "data"
    case Remark(x) => ":" + x
  }

  predicate OneLine(text: string) { forall c | c in text :: c != '\r' && c != '\n' }

  /** Nothing in the line ends it, and a value right behind the colon does not start with the space that would be dropped. */
  predicate WrittenOk(w: Written) {
    OneLine(TextOf(w)) && (w.Tight? ==> w.value == "" || w.value[0] != ' ')
  }

  predicate EventOk(ws: seq<Written>) { forall i | 0 <= i < |ws| :: WrittenOk(ws[i]) }

  function ValueOf(w: Written): seq<string> {
    match w
    case Spaced(x) => [x]
    case Tight(x) => [x]
    case Bare => [""]
    case Remark(_) => []
  }

  /** The values of the data lines, in order. */
  function Values(ws: seq<Written>): seq<string> {
    if ws == [] then [] else ValueOf(ws[0]) + Values(ws[1..])
  }

  /** The values as the lines of one text. */
  function InLines(values: seq<string>): string {
    if values == [] then ""
    else if |values| == 1 then values[0]
    else InLines(values[..|values| - 1]) + "\n" + values[|values| - 1]
  }

  predicate IsNewline(nl: seq<byte>) { nl == [0x0A] || nl == [0x0D] || nl == [0x0D, 0x0A] }

  function LinesBytes(ws: seq<Written>, nl: seq<byte>): seq<byte> {
    if ws == [] then [] else EncodeText(TextOf(ws[0])) + nl + LinesBytes(ws[1..], nl)
  }

  /** The event's lines and the blank line that ends it. */
  function EventBytes(ws: seq<Written>, nl: seq<byte>): seq<byte> { LinesBytes(ws, nl) + nl }

  function StreamBytes(events: seq<seq<Written>>, nl: seq<byte>): seq<byte> {
    if events == [] then [] else EventBytes(events[0], nl) + StreamBytes(events[1..], nl)
  }

  predicate EventFits(ws: seq<Written>, nl: seq<byte>) { |EventBytes(ws, nl)| <= 65_536 && |ws| <= 1_024 }

  /** The texts of the events, in order; nothing if an event is too long or its data is refused. */
  function Answers(payload: Payload, events: seq<seq<Written>>, nl: seq<byte>): Option<seq<string>> {
    if events == [] then Some([])
    else
      var values, rest := Values(events[0]), Answers(payload, events[1..], nl);
      if !EventFits(events[0], nl) || rest.None? then None
      else if values == [] then rest
      else
        match payload(InLines(values))
        case None => None
        case Some(None) => rest
        case Some(Some(text)) => Some([text] + rest.value)
  }

  predicate SaysDone(ws: seq<Written>) { Values(ws) != [] && InLines(Values(ws)) == "[DONE]" }

  // ----- one line -----

  lemma {:induction false} EncodedOneLine(text: string)
    requires OneLine(text)
    ensures forall k | 0 <= k < |EncodeText(text)| :: !IsBreak(EncodeText(text)[k])
  {
    if text != "" {
      assert forall c | c in text[1..] :: c in text;
      EncodedOneLine(text[1..]);
      assert text[0] in text;
      PlainBytes(text[0]);
    }
  }

  lemma PlainBytes(c: char)
    requires c != '\r' && c != '\n'
    ensures forall k | 0 <= k < Width(c) :: !IsBreak(Utf8Bytes(c)[k])
  {
  }

  lemma EncodedNotEmpty(text: string)
    requires text != ""
    ensures EncodeText(text) != []
  {
    assert |Utf8Bytes(text[0])| == Width(text[0]) >= 1;
  }

  lemma FieldOf(w: Written)
    requires WrittenOk(w)
    ensures TextOf(w) != ""
    ensures IsComment(TextOf(w)) <==> w.Remark?
    ensures !w.Remark? ==> DataField(TextOf(w)) == Some(ValueOf(w)[0])
  {
    var line := TextOf(w);
    match w
    case Spaced(x) =>
      assert line[..4] == "data" && line[6..] == x;
    case Tight(x) =>
      assert line[..4] == "data" && line[5..] == x && (x != "" ==> line[5] == x[0]);
    case Bare =>
      assert line[..4] == "data";
    case Remark(x) =>
      assert line[0] == ':';
  }

  // ----- lines of a stream -----

  function LineOf(w: Written, nl: seq<byte>): Line { Line(EncodeText(TextOf(w)), |nl|) }

  function EventLines(ws: seq<Written>, nl: seq<byte>): (r: seq<Line>)
    ensures |r| == |ws|
  {
    seq(|ws|, i requires 0 <= i < |ws| => LineOf(ws[i], nl))
  }

  function StreamLines(events: seq<seq<Written>>, nl: seq<byte>): seq<Line> {
    if events == [] then [] else (EventLines(events[0], nl) + [Line([], |nl|)]) + StreamLines(events[1..], nl)
  }

  /** What follows a newline does not extend it. */
  predicate Separate(nl: seq<byte>, rest: seq<byte>) { nl == [CR] && rest != [] ==> rest[0] != LF }

  lemma {:induction false} BreakAt(s: seq<byte>, k: nat)
    requires k < |s| && IsBreak(s[k]) && forall j | 0 <= j < k :: !IsBreak(s[j])
    ensures FirstBreak(s) == k
  {
    if k > 0 {
      assert !IsBreak(s[0]);
      BreakAt(s[1..], k - 1);
    }
  }

  lemma SplitOne(content: seq<byte>, nl: seq<byte>, rest: seq<byte>)
    requires IsNewline(nl) && Separate(nl, rest) && forall k | 0 <= k < |content| :: !IsBreak(content[k])
    ensures SplitLines(content + nl + rest) == ([Line(content, |nl|)] + SplitLines(rest).0, SplitLines(rest).1)
  {
    var s := content + nl + rest;
    assert s[|content|] == nl[0] && s[..|content|] == content;
    assert forall k | 0 <= k < |content| :: s[k] == content[k];
    BreakAt(s, |content|);
    assert |s| > |content| + 1 ==> s[|content| + 1] == (nl + rest)[1];
    assert s[|content| + |nl|..] == rest;
  }

  lemma NewlineSeparates(nl: seq<byte>, rest: seq<byte>)
    requires IsNewline(nl)
    ensures Separate(nl, nl + rest)
  {
  }

  lemma LineSeparates(ws: seq<Written>, nl: seq<byte>, rest: seq<byte>)
    requires IsNewline(nl) && EventOk(ws)
    ensures Separate(nl, LinesBytes(ws, nl) + nl + rest)
  {
    if ws != [] {
      var content := EncodeText(TextOf(ws[0]));
      FieldOf(ws[0]);
      EncodedNotEmpty(TextOf(ws[0]));
      EncodedOneLine(TextOf(ws[0]));
      assert (LinesBytes(ws, nl) + nl + rest)[0] == content[0];
    } else {
      NewlineSeparates(nl, rest);
      assert LinesBytes(ws, nl) + nl == nl;
    }
  }

  /** An event's bytes split into its lines, whatever follows. */
  lemma {:induction false} EventSplits(ws: seq<Written>, nl: seq<byte>, rest: seq<byte>)
    requires IsNewline(nl) && EventOk(ws) && Separate(nl, rest)
    ensures SplitLines(EventBytes(ws, nl) + rest) ==
              (EventLines(ws, nl) + [Line([], |nl|)] + SplitLines(rest).0, SplitLines(rest).1)
    decreases |ws|
  {
    hide SplitLines, EncodeText, Separate, IsNewline;
    if ws == [] {
      SplitOne([], nl, rest);
      assert [] + nl == nl && EventBytes(ws, nl) == nl;
      assert EventLines(ws, nl) + [Line([], |nl|)] == [Line([], |nl|)];
    } else {
      var content := EncodeText(TextOf(ws[0]));
      var more := LinesBytes(ws[1..], nl) + nl + rest;
      EncodedOneLine(TextOf(ws[0]));
      LineSeparates(ws[1..], nl, rest);
      SplitOne(content, nl, more);
      EventSplits(ws[1..], nl, rest);
      assert EventBytes(ws, nl) + rest == content + nl + more;
      assert EventLines(ws, nl) == [LineOf(ws[0], nl)] + EventLines(ws[1..], nl);
      Regrouped(LineOf(ws[0], nl), EventLines(ws[1..], nl), Line([], |nl|), SplitLines(rest).0);
    }
  }

  lemma Regrouped(first: Line, lines: seq<Line>, blank: Line, rest: seq<Line>)
    ensures [first] + (lines + [blank] + rest) == ([first] + lines) + [blank] + rest
  {
  }

  lemma {:induction false} StreamSeparates(events: seq<seq<Written>>, nl: seq<byte>)
    requires IsNewline(nl) && forall i | 0 <= i < |events| :: EventOk(events[i])
    ensures Separate(nl, StreamBytes(events, nl))
  {
    if events != [] {
      LineSeparates(events[0], nl, StreamBytes(events[1..], nl));
    }
  }

  lemma {:induction false} StreamSplits(events: seq<seq<Written>>, nl: seq<byte>)
    requires IsNewline(nl) && forall i | 0 <= i < |events| :: EventOk(events[i])
    ensures SplitLines(StreamBytes(events, nl)) == (StreamLines(events, nl), [])
    decreases |events|
  {
    hide EventOk, IsNewline, EventBytes, EventLines;
    if events != [] {
      hide SplitLines;
      StreamSeparates(events[1..], nl);
      StreamSplits(events[1..], nl);
      EventSplits(events[0], nl, StreamBytes(events[1..], nl));
    }
  }

  // ----- one event -----

  lemma {:induction false} WeighsItsBytes(ws: seq<Written>, nl: seq<byte>)
    ensures Weight(EventLines(ws, nl)) == |LinesBytes(ws, nl)|
  {
    if ws != [] {
      WeighsItsBytes(ws[1..], nl);
      assert EventLines(ws, nl)[1..] == EventLines(ws[1..], nl);
    }
  }

  lemma {:induction false} DataIsValues(ws: seq<Written>, nl: seq<byte>)
    requires EventOk(ws)
    ensures DataOf(EventLines(ws, nl)) == Some(Values(ws))
  {
    hide DataField, IsComment, TextOf, Decode, EncodeText;
    if ws != [] {
      DataIsValues(ws[1..], nl);
      assert EventLines(ws, nl)[1..] == EventLines(ws[1..], nl);
      DecodesWhatIsEncoded(TextOf(ws[0]));
      FieldOf(ws[0]);
      assert ws[0].Remark? ==> [] + Values(ws[1..]) == Values(ws[1..]);
    }
  }

  lemma {:induction false} JoinLast(xs: seq<string>, x: string)
    requires xs != []
    ensures Join(xs + [x]) == Join(xs) + "\n" + x
  {
    assert (xs + [x])[1..] == xs[1..] + [x];
    if |xs| > 1 {
      JoinLast(xs[1..], x);
    }
  }

  lemma {:induction false} JoinIsInLines(values: seq<string>)
    ensures Join(values) == InLines(values)
  {
    if |values| > 1 {
      var n := |values| - 1;
      JoinIsInLines(values[..n]);
      JoinLast(values[..n], values[n]);
      assert values == values[..n] + [values[n]];
    }
  }

  /** What an event answers: a text, nothing, the end of the stream, or a refusal. */
  lemma EventIsRead(payload: Payload, ws: seq<Written>, nl: seq<byte>)
    requires EventOk(ws) && IsNewline(nl)
    ensures var r := ReadEvent(payload, EventLines(ws, nl), Line([], |nl|));
            if !EventFits(ws, nl) then r == None
            else if Values(ws) == [] then r == Some(Nothing)
            else if SaysDone(ws) then r == Some(End)
            else
              var answer := payload(InLines(Values(ws)));
              r == if answer.None? then None else if answer.value.None? then Some(Nothing) else Some(Text(answer.value.value))
  {
    hide DataOf, Weight, Join, InLines, LinesBytes;
    WeighsItsBytes(ws, nl);
    DataIsValues(ws, nl);
    JoinIsInLines(Values(ws));
  }

  lemma EventGroups(ws: seq<Written>, nl: seq<byte>, more: seq<Line>)
    requires EventOk(ws)
    ensures var lines := EventLines(ws, nl) + [Line([], |nl|)] + more;
            && FirstBlank(lines) == |ws| && lines[..|ws|] == EventLines(ws, nl) && lines[|ws| + 1..] == more
  {
    var lines := EventLines(ws, nl) + [Line([], |nl|)] + more;
    forall k | 0 <= k < |ws|
      ensures lines[k].content != []
    {
      FieldOf(ws[k]);
      EncodedNotEmpty(TextOf(ws[k]));
    }
    assert lines[|ws|].content == [];
  }

  /** The batch reading of a stream that ends in `[DONE]`. */
  lemma {:induction false} EventsAreRead(payload: Payload, events: seq<seq<Written>>, last: seq<Written>, nl: seq<byte>)
    requires IsNewline(nl) && EventOk(last) && SaysDone(last) && EventFits(last, nl)
    requires forall i | 0 <= i < |events| :: EventOk(events[i]) && !SaysDone(events[i])
    ensures ReadEvents(payload, StreamLines(events + [last], nl)) == Answers(payload, events, nl)
    decreases |events|
  {
    hide ReadEvent, EventLines, EventFits, Values, InLines, FirstBlank;
    var all := events + [last];
    EventGroups(all[0], nl, StreamLines(all[1..], nl));
    EventIsRead(payload, all[0], nl);
    if events == [] {
      assert StreamLines(all[1..], nl) == [];
    } else {
      assert all[1..] == events[1..] + [last];
      EventsAreRead(payload, events[1..], last, nl);
    }
  }

  // ----- the theorem -----

  /**
    A stream written in events, the last of them `[DONE]`, is accepted exactly when every
    event fits and is answered, and emits exactly their texts, in whatever chunks it comes.
  */
  lemma StreamsAreRead(payload: Payload, events: seq<seq<Written>>, last: seq<Written>, nl: seq<byte>, chunks: seq<seq<byte>>)
    requires IsNewline(nl) && EventOk(last) && SaysDone(last) && EventFits(last, nl)
    requires forall i | 0 <= i < |events| :: EventOk(events[i]) && !SaysDone(events[i])
    requires Concat(chunks) == StreamBytes(events + [last], nl)
    ensures var f, answers := FeedChunks(payload, START, chunks), Answers(payload, events, nl);
            && (answers.Some? <==> f.Some? && Finishes(payload, f.value.state))
            && (answers.Some? ==> f.value.texts == answers.value)
  {
    hide EventOk, SaysDone, IsNewline, EventFits, FeedChunks, Finishes, ReadEvents, Answers, StreamBytes, SplitLines, Concat;
    StreamMeansBatch(payload, chunks);
    StreamSplits(events + [last], nl);
    EventsAreRead(payload, events, last, nl);
  }

  // ----- refusals -----

  /** Neither a comment nor a line of the field "data": another field, or no well-formed text at all. */
  predicate Foreign(content: seq<byte>) {
    content != [] &&
    match Decode(content)
    case None => true
    case Some(text) => text != "" && text[0] != ':' && text != "data" && !("data:" <= text)
  }

  lemma ForeignHasNoData(line: string)
    requires line != "data" && !("data:" <= line)
    ensures DataField(line).None?
  {
    assert |line| >= 5 && line[..4] == "data" && line[4] == ':' ==> "data:" <= line;
  }

  lemma {:induction false} ForeignLine(lines: seq<Line>, i: nat)
    requires i < |lines| && Foreign(lines[i].content)
    ensures DataOf(lines).None?
  {
    hide Decode;
    if i > 0 {
      ForeignLine(lines[1..], i - 1);
    } else if Decode(lines[0].content).Some? {
      ForeignHasNoData(Decode(lines[0].content).value);
    }
  }

  lemma {:induction false} ForeignEvents(payload: Payload, lines: seq<Line>, i: nat)
    requires i < |lines| && Foreign(lines[i].content)
    ensures ReadEvents(payload, lines).None?
    decreases |lines|
  {
    hide Foreign, DataOf;
    var n := FirstBlank(lines);
    if n < |lines| {
      NotBlank(lines[i]);
      if i < n {
        assert lines[..n][i] == lines[i];
        ForeignLine(lines[..n], i);
      } else {
        assert lines[n + 1..][i - n - 1] == lines[i];
        ForeignEvents(payload, lines[n + 1..], i - n - 1);
      }
    }
  }

  lemma NotBlank(l: Line)
    requires Foreign(l.content)
    ensures l.content != []
  {
  }

  /** A stream with a line of any other field, or with bytes that are no text, is refused however it is cut. */
  lemma ForeignIsRefused(payload: Payload, chunks: seq<seq<byte>>, i: nat)
    requires i < |SplitLines(Concat(chunks)).0| && Foreign(SplitLines(Concat(chunks)).0[i].content)
    ensures var f := FeedChunks(payload, START, chunks);
            !(f.Some? && Finishes(payload, f.value.state))
  {
    hide Foreign, FeedChunks, Finishes, ReadEvents, SplitLines, Concat;
    StreamMeansBatch(payload, chunks);
    ForeignEvents(payload, SplitLines(Concat(chunks)).0, i);
  }
}
