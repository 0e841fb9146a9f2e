/**
  The byte-at-a-time parser of a text event stream.

  `OpenAITextSSEParser` updates its fields one byte at a time; every method is
  proved against a function on `State`, the value of those fields.  `None`
  stands for the one error every failure raises; a parser is not used after it.
  What one event's payload says is a parameter: no answer, or optional text.
*/
module Sse {
  import opened Wrappers
  import opened Utf8

  const MAX_EVENT_BYTES := 65536
  const MAX_EVENT_LINES := 1024
  const CR: byte := 0x0D
  const LF: byte := 0x0A

  type Payload = string -> Option<Option<string>>

  datatype State = State(
    line: seq<byte>,
    sawCr: bool,
    dataLines: seq<string>,
    eventBytes: nat,
    eventLines: nat,
    done: bool)

  const START := State([], false, [], 0, 0, false)

  /** A parser state with the texts emitted on the way to it. */
  datatype Step = Step(state: State, texts: seq<string>)

  function Join(lines: seq<string>): string {
    if lines == [] then "" else if |lines| == 1 then lines[0] else lines[0] + "\n" + Join(lines[1..])
  }

  /** The value of a `data` field line; other fields are errors, and a value keeps all but one leading space. */
  function DataField(line: string): Option<string> {
    if |line| < 4 || line[..4] != "data" then None
    else if |line| == 4 then Some("")
    else if line[4] != ':' then None
    else if |line| > 5 && line[5] == ' ' then Some(line[6..])
    else Some(line[5..])
  }

  predicate IsComment(line: string) { line != "" && line[0] == ':' }

  function CountByte(s: State): Option<State> {
    if s.eventBytes + 1 > MAX_EVENT_BYTES then None else Some(s.(eventBytes := s.eventBytes + 1))
  }

  function Dispatch(payload: Payload, s: State): Option<Step> {
    var data := Join(s.dataLines);
    var t := s.(dataLines := []);
    if data == "[DONE]" then Some(Step(t.(done := true), []))
    else if Length(data) > MAX_EVENT_BYTES then None
    else
      match payload(data)
      case None => None
      case Some(None) => Some(Step(t, []))
      case Some(Some(text)) => Some(Step(t, [text]))
  }

  function FinishLine(payload: Payload, s: State): Option<Step> {
    var t := s.(line := []);
    if s.done then None
    else if s.line == [] then
      var d := if s.dataLines != [] then Dispatch(payload, t) else Some(Step(t, []));
      if d.None? then None
      else Some(Step(d.value.state.(eventBytes := 0, eventLines := 0), d.value.texts))
    else if s.eventLines + 1 > MAX_EVENT_LINES then None
    else
      var line := Decode(s.line);
      var u := t.(eventLines := s.eventLines + 1);
      if line.None? then None
      else if IsComment(line.value) then Some(Step(u, []))
      else if DataField(line.value).None? then None
      else Some(Step(u.(dataLines := s.dataLines + [DataField(line.value).value]), []))
  }

  function Then(a: Option<Step>, b: Option<Step>): Option<Step> {
    if a.None? || b.None? then None else Some(Step(b.value.state, a.value.texts + b.value.texts))
  }

  /** A byte that does not complete a pending CR LF. */
  function PlainByte(payload: Payload, s: State, b: byte): Option<Step> {
    if s.done || CountByte(s).None? then None
    else
      var t := CountByte(s).value;
      if b == CR then Some(Step(t.(sawCr := true), []))
      else if b == LF then FinishLine(payload, t)
      else Some(Step(t.(line := t.line + [b]), []))
  }

  function OneByte(payload: Payload, s: State, b: byte): Option<Step> {
    var t := s.(sawCr := false);
    if !s.sawCr then PlainByte(payload, s, b)
    else if b == LF then
      if CountByte(t).None? then None else FinishLine(payload, CountByte(t).value)
    else
      var ended := FinishLine(payload, t);
      if ended.None? then None else Then(ended, PlainByte(payload, ended.value.state, b))
  }

  function FeedBytes(payload: Payload, s: State, bytes: seq<byte>): Option<Step> {
    if bytes == [] then Some(Step(s, []))
    else
      var front := FeedBytes(payload, s, bytes[..|bytes| - 1]);
      if front.None? then None
      else Then(front, OneByte(payload, front.value.state, bytes[|bytes| - 1]))
  }

  function FeedChunk(payload: Payload, s: State, chunk: seq<byte>): Option<Step> {
    if s.done && chunk != [] then None else FeedBytes(payload, s, chunk)
  }

  /** The line a final CR leaves open is finished before the parser judges the stream. */
  function Settle(payload: Payload, s: State): Option<Step> {
    if s.sawCr then FinishLine(payload, s.(sawCr := false)) else Some(Step(s, []))
  }

  predicate Complete(s: State) { s.line == [] && s.dataLines == [] && s.done }

  predicate Finishes(payload: Payload, s: State) {
    Settle(payload, s).Some? && Complete(Settle(payload, s).value.state)
  }

  // ----- the parser object -----

  class OpenAITextSSEParser {
    const payload: Payload
    var line: seq<byte>
    var sawCr: bool
    var dataLines: seq<string>
    var eventBytes: nat
    var eventLines: nat
    var done: bool

    ghost function View(): State
      reads this
    {
      State(line, sawCr, dataLines, eventBytes, eventLines, done)
    }

    constructor (payload: Payload)
      ensures View() == START && this.payload == payload
    {
      this.payload := payload;
      line, sawCr, dataLines, eventBytes, eventLines, done := [], false, [], 0, 0, false;
    }

    method CountEventByte() returns (ok: bool)
      modifies this`eventBytes
      ensures ok <==> CountByte(old(View())).Some?
      ensures ok ==> View() == CountByte(old(View())).value
    {
      eventBytes := eventBytes + 1;
      ok := eventBytes <= MAX_EVENT_BYTES;
    }

    method DispatchEvent() returns (texts: Option<seq<string>>)
      modifies this`dataLines, this`done
      ensures texts.Some? <==> Dispatch(payload, old(View())).Some?
      ensures texts.Some? ==> Dispatch(payload, old(View())) == Some(Step(View(), texts.value))
    {
      var data := Join(dataLines);
      dataLines := [];
      if data == "[DONE]" {
        done := true;
        return Some([]);
      }
      if Length(data) > MAX_EVENT_BYTES {
        return None;
      }
      match payload(data)
      case None => texts := None;
      case Some(None) => texts := Some([]);
      case Some(Some(text)) => texts := Some([text]);
    }

    method EndLine() returns (texts: Option<seq<string>>)
      modifies this
      ensures texts.Some? <==> FinishLine(payload, old(View())).Some?
      ensures texts.Some? ==> FinishLine(payload, old(View())) == Some(Step(View(), texts.value))
    {
      var raw := line;
      line := [];
      if done {
        return None;
      }
      if raw == [] {
        texts := Some([]);
        if dataLines != [] {
          texts := DispatchEvent();
        }
        eventBytes, eventLines := 0, 0;
        return;
      }
      eventLines := eventLines + 1;
      if eventLines > MAX_EVENT_LINES {
        return None;
      }
      var text := Decode(raw);
      if text.None? {
        return None;
      }
      if IsComment(text.value) {
        return Some([]);
      }
      var value := DataField(text.value);
      if value.None? {
        return None;
      }
      dataLines := dataLines + [value.value];
      texts := Some([]);
    }

    method TakeByte(value: byte) returns (texts: Option<seq<string>>)
      modifies this
      ensures texts.Some? <==> OneByte(payload, old(View()), value).Some?
      ensures texts.Some? ==> OneByte(payload, old(View()), value) == Some(Step(View(), texts.value))
    {
      var emitted: seq<string> := [];
      if sawCr {
        sawCr := false;
        if value == LF {
          var counted := CountEventByte();
          if !counted {
            return None;
          }
          texts := EndLine();
          return;
        }
        var ended := EndLine();
        if ended.None? {
          return None;
        }
        emitted := ended.value;
      }
      if done {
        return None;
      }
      var counted := CountEventByte();
      if !counted {
        return None;
      }
      if value == CR {
        sawCr := true;
      } else if value == LF {
        var ended := EndLine();
        if ended.None? {
          return None;
        }
        assert [] + ended.value == ended.value;
        emitted := emitted + ended.value;
      } else {
        line := line + [value];
      }
      assert emitted + [] == emitted;
      texts := Some(emitted);
    }

    method Feed(chunk: seq<byte>) returns (texts: Option<seq<string>>)
      modifies this
      ensures texts.Some? <==> FeedChunk(payload, old(View()), chunk).Some?
      ensures texts.Some? ==> FeedChunk(payload, old(View()), chunk) == Some(Step(View(), texts.value))
    {
      if done && chunk != [] {
        return None;
      }
      var emitted: seq<string> := [];
      for i := 0 to |chunk|
        invariant FeedBytes(payload, old(View()), chunk[..i]) == Some(Step(View(), emitted))
      {
        assert chunk[..i + 1][..i] == chunk[..i];
        var more := TakeByte(chunk[i]);
        if more.None? {
          FailureStays(payload, old(View()), chunk, i + 1);
          return None;
        }
        emitted := emitted + more.value;
      }
      assert chunk[..|chunk|] == chunk;
      texts := Some(emitted);
    }

    method Finish() returns (ok: bool)
      modifies this
      ensures ok <==> Finishes(payload, old(View()))
      ensures ok ==> View() == Settle(payload, old(View())).value.state
    {
      if sawCr {
        sawCr := false;
        var discarded := EndLine();
        if discarded.None? {
          return false;
        }
      }
      ok := line == [] && dataLines == [] && done;
    }
  }

  lemma {:induction false} FailureStays(payload: Payload, s: State, bytes: seq<byte>, n: nat)
    requires n <= |bytes| && FeedBytes(payload, s, bytes[..n]).None?
    ensures FeedBytes(payload, s, bytes).None?
    decreases |bytes| - n
  {
    if n < |bytes| {
      assert bytes[..n + 1][..n] == bytes[..n];
      FailureStays(payload, s, bytes, n + 1);
    } else {
      assert bytes[..n] == bytes;
    }
  }
}
