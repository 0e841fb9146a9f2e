/** Chapter ranges of a corpus source: in raw bytes and in the normalised whole. */
module CorpusChapters {
  import opened Wrappers
  import opened Ordering
  import opened Utf8

  /** The bytes of one character; a text's bytes are its characters' in turn. */
  type Codec = char -> seq<byte>

  const UTF8_BOM: seq<byte> := [0xEF, 0xBB, 0xBF]

  function Encode(text: string, codec: Codec): seq<byte> {
    if text == "" then [] else Encode(text[..|text| - 1], codec) + codec(text[|text| - 1])
  }

  /** Decoded text, whether its bytes open with a byte-order mark, and those bytes. */
  datatype Source = Source(text: string, marked: bool, codec: Codec)

  function Mark(s: Source): seq<byte> { if s.marked then UTF8_BOM else [] }

  function RawBytes(s: Source): seq<byte> { Mark(s) + Encode(s.text, s.codec) }

  // ----- byte offsets -----

  /** Where a character position stands in the raw bytes. */
  function Offset(s: Source, p: nat): nat
    requires p <= |s.text|
  {
    |Mark(s)| + |Encode(s.text[..p], s.codec)|
  }

  lemma {:induction false} EncodeSplits(a: string, b: string, codec: Codec)
    ensures Encode(a + b, codec) == Encode(a, codec) + Encode(b, codec)
  {
    if b == "" {
      assert a + b == a;
    } else {
      EncodeSplits(a, b[..|b| - 1], codec);
      assert (a + b)[..|a + b| - 1] == a + b[..|b| - 1];
    }
  }

  /** The raw bytes between two character positions are the encoding of the text between them. */
  lemma OffsetsCutRaw(s: Source, p: nat, q: nat)
    requires p <= q <= |s.text|
    ensures Offset(s, p) <= Offset(s, q) <= |RawBytes(s)|
    ensures RawBytes(s)[Offset(s, p)..Offset(s, q)] == Encode(s.text[p..q], s.codec)
    ensures Offset(s, |s.text|) == |RawBytes(s)|
  {
    hide Encode;
    assert s.text[..q] == s.text[..p] + s.text[p..q];
    assert s.text == s.text[..q] + s.text[q..];
    assert s.text[..|s.text|] == s.text;
    EncodeSplits(s.text[..p], s.text[p..q], s.codec);
    EncodeSplits(s.text[..q], s.text[q..], s.codec);
  }

  datatype OffsetError = OutOfRange

  predicate InText(s: Source, boundaries: seq<int>) { forall b | b in boundaries :: 0 <= b <= |s.text| }

  lemma SortedInts(xs: seq<int>, i: nat, j: nat)
    requires Sorted(xs, (b: int) => [[b]]) && i < j < |xs|
    ensures xs[i] <= xs[j]
  {
    var key := (b: int) => [[b]];
    assert AtMost(key(xs[i]), key(xs[j]));
    SingleLess(xs[j], xs[i]);
  }

  lemma OffsetStep(s: Source, p: nat, q: nat)
    requires p <= q <= |s.text|
    ensures Offset(s, q) == Offset(s, p) + |Encode(s.text[p..q], s.codec)|
  {
    hide Encode;
    assert s.text[..q] == s.text[..p] + s.text[p..q];
    EncodeSplits(s.text[..p], s.text[p..q], s.codec);
  }

  method SortedOnce(boundaries: seq<int>) returns (ordered: seq<int>)
    ensures forall b :: b in ordered <==> b in boundaries
    ensures forall i, j | 0 <= i < j < |ordered| :: ordered[i] <= ordered[j]
  {
    hide Sorted;
    var key := (b: int) => [[b]];
    var once: seq<int> := [];
    for i := 0 to |boundaries|
      invariant forall b :: b in once <==> b in boundaries[..i]
    {
      assert boundaries[..i + 1] == boundaries[..i] + [boundaries[i]];
      if boundaries[i] !in once {
        once := once + [boundaries[i]];
      }
    }
    assert boundaries[..|boundaries|] == boundaries;
    ordered := SortBy(once, key);
    SortKeepsElements(once, key);
    SortSorts(once, key);
    forall i, j | 0 <= i < j < |ordered|
      ensures ordered[i] <= ordered[j]
    {
      SortedInts(ordered, i, j);
    }
  }

  /** One forward pass over the sorted boundaries finds the offset of each. */
  method BuildByteOffsets(s: Source, boundaries: seq<int>) returns (r: Result<map<int, nat>, OffsetError>)
    ensures r.Success? <==> InText(s, boundaries)
    ensures r.Success? ==> forall b | b in boundaries :: b in r.value && 0 <= b <= |s.text| && r.value[b] == Offset(s, b)
  {
    hide Encode;
    var ordered := SortedOnce(boundaries);
    if exists b | b in ordered :: !(0 <= b <= |s.text|) {
      return Failure(OutOfRange);
    }
    forall k | 0 <= k < |ordered|
      ensures 0 <= ordered[k] <= |s.text|
    {
      assert ordered[k] in ordered;
    }
    var characterCursor, byteCursor := 0, |Mark(s)|;
    var offsets: map<int, nat> := map[];
    NoOffset(s);
    for i := 0 to |ordered|
      invariant 0 <= characterCursor <= |s.text| && byteCursor == Offset(s, characterCursor)
      invariant i < |ordered| ==> characterCursor <= ordered[i]
      invariant forall k | 0 <= k < i :: ordered[k] in offsets && offsets[ordered[k]] == Offset(s, ordered[k])
    {
      var boundary := ordered[i];
      OffsetStep(s, characterCursor, boundary);
      byteCursor := byteCursor + |Encode(s.text[characterCursor..boundary], s.codec)|;
      offsets := offsets[boundary := byteCursor];
      characterCursor := boundary;
    }
    r := Success(offsets);
  }

  lemma NoOffset(s: Source)
    ensures Offset(s, 0) == |Mark(s)|
  {
  }
}
