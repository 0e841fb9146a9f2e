/** The strict reader over chunks of an archive member. */
module PackageReader {
  import opened Wrappers
  import opened Ordering
  import opened Utf8
  import opened PackageRecords

  datatype StreamError = Invalid | TooLarge

  /** What a source gives until its first empty chunk. */
  function Delivered(chunks: seq<seq<byte>>): seq<byte> {
    if chunks == [] || chunks[0] == [] then [] else chunks[0] + Delivered(chunks[1..])
  }

  predicate ChunksFit(chunks: seq<seq<byte>>) {
    chunks == [] || chunks[0] == [] || (|chunks[0]| <= READ_CHUNK_BYTES && ChunksFit(chunks[1..]))
  }

  /** The outcome said without chunks: the whole is read line by line. */
  function Read(chunks: seq<seq<byte>>, byteLength: nat, f: Format): Result<seq<Record>, StreamError> {
    if byteLength > MAX_STRUCTURED_ENTRY_BYTES then Failure(TooLarge)
    else if !ChunksFit(chunks) || |Delivered(chunks)| != byteLength || ReadFrom(Delivered(chunks), [], f).None? then Failure(Invalid)
    else Success(ReadFrom(Delivered(chunks), [], f).value)
  }

  // ----- the buffer -----

  lemma NewlineStaysFirst(buffer: seq<byte>, rest: seq<byte>)
    requires FindNewline(buffer).Some?
    ensures FindNewline(buffer + rest) == FindNewline(buffer)
  {
    hide FindNewline;
    var end := FindNewline(buffer).value;
    forall k | 0 <= k < end
      ensures buffer[k] != NEWLINE
    {
      assert buffer[..end][k] == buffer[k];
    }
    FindIs(buffer + rest, end);
  }

  /** One line taken off the buffer, seen from the whole. */
  lemma LineTaken(buffer: seq<byte>, rest: seq<byte>, records: seq<Record>, f: Format)
    requires FindNewline(buffer).Some?
    ensures var end := FindNewline(buffer).value;
            var r := RecordOf(buffer[..end + 1], f);
            ReadFrom(buffer + rest, records, f) ==
              if end == 0 || r.None? || !Follows(records, r.value) then None
              else ReadFrom(buffer[end + 1..] + rest, records + [r.value], f)
  {
    hide FindNewline, Follows;
    NewlineStaysFirst(buffer, rest);
    var end := FindNewline(buffer).value;
    assert (buffer + rest)[..end + 1] == buffer[..end + 1];
    assert (buffer + rest)[end + 1..] == buffer[end + 1..] + rest;
  }

  lemma Unfinished(buffer: seq<byte>, records: seq<Record>, f: Format)
    requires FindNewline(buffer).None?
    ensures ReadFrom(buffer, records, f) == if buffer == [] then Some(records) else None
  {
    hide FindNewline;
  }

  /** Takes every complete line off the buffer. */
  method TakeLines(buffer: seq<byte>, records: seq<Record>, ghost rest: seq<byte>, f: Format)
    returns (ok: bool, left: seq<byte>, more: seq<Record>)
    ensures !ok ==> ReadFrom(buffer + rest, records, f).None?
    ensures ok ==> FindNewline(left).None? && |left| <= |buffer|
    ensures ok ==> ReadFrom(buffer + rest, records, f) == ReadFrom(left + rest, more, f)
  {
    hide FindNewline, ReadFrom, RecordOf, Less, SortKey;
    left, more := buffer, records;
    var identities := set r | r in records :: IdentityOf(r);
    var previous := if records == [] then None else Some(SortKey(records[|records| - 1]));
    while FindNewline(left).Some?
      invariant |left| <= |buffer|
      invariant ReadFrom(buffer + rest, records, f) == ReadFrom(left + rest, more, f)
      invariant identities == set r | r in more :: IdentityOf(r)
      invariant previous == if more == [] then None else Some(SortKey(more[|more| - 1]))
      decreases |left|
    {
      var lineEnd := FindNewline(left).value;
      var raw := left[..lineEnd + 1];
      LineTaken(left, rest, more, f);
      if lineEnd == 0 {
        return false, [], [];
      }
      left := left[lineEnd + 1..];
      var record := RecordOf(raw, f);
      if record.None? {
        return false, [], [];
      }
      var sortKey := SortKey(record.value);
      FollowsAsChecked(more, record.value, identities, previous);
      if IdentityOf(record.value) in identities || (previous.Some? && !Less(previous.value, sortKey)) || |more| >= MAX_ENTRY_COUNT {
        return false, [], [];
      }
      identities := identities + {IdentityOf(record.value)};
      previous := Some(sortKey);
      more := more + [record.value];
    }
    ok := true;
  }

  lemma FollowsAsChecked(rs: seq<Record>, r: Record, identities: set<(string, string)>, previous: Option<Key>)
    requires identities == set x | x in rs :: IdentityOf(x)
    requires previous == if rs == [] then None else Some(SortKey(rs[|rs| - 1]))
    ensures Follows(rs, r) <==>
              IdentityOf(r) !in identities && (previous.Some? ==> Less(previous.value, SortKey(r))) && |rs| < MAX_ENTRY_COUNT
  {
    hide Less, SortKey;
    if IdentityOf(r) in identities {
      var x :| x in rs && IdentityOf(x) == IdentityOf(r);
    } else {
      forall i | 0 <= i < |rs|
        ensures IdentityOf(rs[i]) != IdentityOf(r)
      {
        assert rs[i] in rs;
      }
    }
  }

  lemma DeliveredStep(chunks: seq<seq<byte>>, i: nat)
    requires i < |chunks|
    ensures Delivered(chunks[i..]) == if chunks[i] == [] then [] else chunks[i] + Delivered(chunks[i + 1..])
    ensures ChunksFit(chunks[i..]) <==> chunks[i] == [] || (|chunks[i]| <= READ_CHUNK_BYTES && ChunksFit(chunks[i + 1..]))
  {
    assert chunks[i..][0] == chunks[i] && chunks[i..][1..] == chunks[i + 1..];
  }

  /** Chunks are read into a buffer whose size recheck can never fire. */
  method StreamRecords(chunks: seq<seq<byte>>, byteLength: nat, f: Format) returns (r: Result<seq<Record>, StreamError>)
    ensures r == Read(chunks, byteLength, f)
  {
    hide FindNewline, ReadFrom, Delivered, ChunksFit;
    if byteLength > MAX_STRUCTURED_ENTRY_BYTES {
      return Failure(TooLarge);
    }
    var buffer: seq<byte>, records: seq<Record>, total, i := [], [], 0, 0;
    NothingDelivered();
    assert chunks[0..] == chunks && buffer + Delivered(chunks) == Delivered(chunks);
    while i < |chunks| && chunks[i] != []
      invariant 0 <= i <= |chunks| && |buffer| <= total <= byteLength
      invariant total + |Delivered(chunks[i..])| == |Delivered(chunks)|
      invariant ChunksFit(chunks[i..]) <==> ChunksFit(chunks)
      invariant FindNewline(buffer).None?
      invariant ReadFrom(Delivered(chunks), [], f) == ReadFrom(buffer + Delivered(chunks[i..]), records, f)
    {
      var chunk := chunks[i];
      ghost var rest := Delivered(chunks[i + 1..]);
      DeliveredStep(chunks, i);
      if |chunk| > READ_CHUNK_BYTES {
        return Failure(Invalid);
      }
      total := total + |chunk|;
      if total > byteLength {
        return Failure(Invalid);
      }
      assert buffer + (chunk + rest) == (buffer + chunk) + rest;
      var ok, left, more := TakeLines(buffer + chunk, records, rest, f);
      if !ok {
        return Failure(Invalid);
      }
      buffer, records := left, more;
      if |buffer| > MAX_STRUCTURED_ENTRY_BYTES {
        assert false;
      }
      i := i + 1;
    }
    AllDelivered(chunks, i);
    assert buffer + [] == buffer;
    Unfinished(buffer, records, f);
    if total != byteLength || buffer != [] {
      return Failure(Invalid);
    }
    r := Success(records);
  }

  lemma NothingDelivered()
    ensures FindNewline([]).None?
  {
  }

  lemma AllDelivered(chunks: seq<seq<byte>>, i: nat)
    requires i <= |chunks| && (i == |chunks| || chunks[i] == [])
    ensures Delivered(chunks[i..]) == [] && ChunksFit(chunks[i..])
  {
  }

  /** However the bytes are cut, they are accepted exactly when they are the canonical print of the records returned. */
  lemma AcceptsExactlyCanonical(chunks: seq<seq<byte>>, byteLength: nat, f: Format, rs: seq<Record>)
    requires FormatOk(f) && ChunksFit(chunks) && |Delivered(chunks)| == byteLength <= MAX_STRUCTURED_ENTRY_BYTES
    ensures Read(chunks, byteLength, f) == Success(rs) <==>
              CanonicalJsonl(rs, f) == Success(Delivered(chunks)) && SortBy(rs, SortKey) == rs
              && IdentitiesDistinct(rs) && |rs| <= MAX_ENTRY_COUNT
  {
    hide ReadFrom, Delivered, ChunksFit, FormatOk, SortBy, IdentitiesDistinct, Lines, SortKey;
    var s := Delivered(chunks);
    if Read(chunks, byteLength, f) == Success(rs) {
      AcceptedIsCanonical(s, f);
      PrintedIsRead(rs, f);
    }
    if CanonicalJsonl(rs, f) == Success(s) && SortBy(rs, SortKey) == rs && IdentitiesDistinct(rs) && |rs| <= MAX_ENTRY_COUNT {
      PrintedIsRead(rs, f);
    }
  }
}
