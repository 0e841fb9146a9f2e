/** Normalised text with the source span of every character, composed unit by unit. */
module NormalizedText {
  import opened Wrappers
  import opened Composition

  // ----- units a normaliser should not split -----

  predicate HangulLead(c: char) { 0x1100 <= c as int <= 0x115F || 0xA960 <= c as int <= 0xA97C }

  predicate HangulVowel(c: char) { 0x1160 <= c as int <= 0x11A7 || 0xD7B0 <= c as int <= 0xD7C6 }

  predicate HangulTrail(c: char) { 0x11A8 <= c as int <= 0x11FF || 0xD7CB <= c as int <= 0xD7FB }

  /** Jamo are starters. */
  ghost predicate JamoOk(u: Ucd) {
    forall c | HangulLead(c) || HangulVowel(c) || HangulTrail(c) :: u.rank(c) == 0
  }

  /** Not before a mark, and not within a lead with its vowel and the trail behind them. */
  predicate Cut(u: Ucd, text: string, p: nat) {
    && 0 < p < |text|
    && u.rank(text[p]) == 0
    && !(HangulLead(text[p - 1]) && HangulVowel(text[p]))
    && !(p >= 2 && HangulLead(text[p - 2]) && HangulVowel(text[p - 1]) && HangulTrail(text[p]))
  }

  /** Where units start below n: at the beginning and at every cut. */
  function Starts(u: Ucd, text: string, n: nat): seq<nat>
    requires n <= |text|
  {
    if n == 0 then []
    else if n == 1 || Cut(u, text, n - 1) then Starts(u, text, n - 1) + [n - 1]
    else Starts(u, text, n - 1)
  }

  lemma {:induction false} StartsAreCuts(u: Ucd, text: string, n: nat)
    requires n <= |text|
    ensures forall k :: k in Starts(u, text, n) <==> 0 <= k < n && (k == 0 || Cut(u, text, k))
  {
    if n > 0 {
      hide Cut;
      StartsAreCuts(u, text, n - 1);
    }
  }

  lemma {:induction false} StartsAscend(u: Ucd, text: string, n: nat)
    requires n <= |text|
    ensures var s := Starts(u, text, n);
            (n > 0 ==> s != [] && s[0] == 0) && forall i, j | 0 <= i < j < |s| :: s[i] < s[j]
  {
    if n > 0 {
      hide Cut;
      StartsAscend(u, text, n - 1);
      StartsAreCuts(u, text, n - 1);
      var before := Starts(u, text, n - 1);
      assert forall i | 0 <= i < |before| :: before[i] in before;
    }
  }

  function Spans(starts: seq<nat>, end: nat): (r: seq<(nat, nat)>)
    ensures |r| == |starts|
  {
    seq(|starts|, i requires 0 <= i < |starts| => (starts[i], if i + 1 < |starts| then starts[i + 1] else end))
  }

  /** From each cut to the next: the units are as fine as the cuts. */
  function Units(u: Ucd, text: string): seq<(nat, nat)> { Spans(Starts(u, text, |text|), |text|) }

  /** No span is empty, each starts where the one before it ends, and the last ends at `upTo`. */
  predicate Contiguous(units: seq<(nat, nat)>, upTo: nat) {
    if units == [] then upTo == 0
    else
      var last := units[|units| - 1];
      last.0 < last.1 == upTo && Contiguous(units[..|units| - 1], last.0)
  }

  lemma OneSpan(starts: seq<nat>, start: nat, end: nat)
    ensures Spans(starts + [start], end) == Spans(starts, start) + [(start, end)]
  {
  }

  lemma {:induction false} SpansAreContiguous(starts: seq<nat>, end: nat)
    requires starts != [] && starts[0] == 0 && starts[|starts| - 1] < end
    requires forall i, j | 0 <= i < j < |starts| :: starts[i] < starts[j]
    ensures Contiguous(Spans(starts, end), end)
  {
    hide Spans;
    var n := |starts| - 1;
    OneSpan(starts[..n], starts[n], end);
    assert starts == starts[..n] + [starts[n]];
    var spans := Spans(starts, end);
    assert spans[..n] == Spans(starts[..n], starts[n]);
    if n > 0 {
      SpansAreContiguous(starts[..n], starts[n]);
    }
  }

  lemma UnitsAreContiguous(u: Ucd, text: string)
    ensures Contiguous(Units(u, text), |text|)
  {
    hide Cut;
    StartsAscend(u, text, |text|);
    StartsAreCuts(u, text, |text|);
    if text != "" {
      var s := Starts(u, text, |text|);
      assert s[|s| - 1] in s;
      SpansAreContiguous(s, |text|);
    }
  }

  lemma {:induction false} OneUnit(u: Ucd, text: string, start: nat, end: nat)
    requires start < end <= |text| && (start == 0 || Cut(u, text, start))
    requires forall p | start < p < end :: !Cut(u, text, p)
    ensures Starts(u, text, end) == Starts(u, text, start) + [start]
  {
    if end > start + 1 {
      OneUnit(u, text, start, end - 1);
    }
  }

  method NormalizationUnits(u: Ucd, text: string) returns (units: seq<(nat, nat)>)
    requires JamoOk(u)
    ensures units == Units(u, text)
  {
    units := [];
    var index := 0;
    while index < |text|
      invariant 0 <= index <= |text| && units == Spans(Starts(u, text, index), index)
      invariant 0 < index < |text| ==> Cut(u, text, index)
    {
      var start := index;
      index := index + 1;
      if HangulLead(text[start]) && index < |text| && HangulVowel(text[index]) {
        index := index + 1;
        if index < |text| && HangulTrail(text[index]) {
          index := index + 1;
        }
      }
      while index < |text| && u.rank(text[index]) != 0
        invariant start < index <= |text|
        invariant forall p | start < p < index :: !Cut(u, text, p)
        invariant index < |text| && u.rank(text[index]) == 0 ==> Cut(u, text, index)
      {
        index := index + 1;
      }
      OneUnit(u, text, start, index);
      OneSpan(Starts(u, text, start), start, index);
      units := units + [(start, index)];
    }
  }

  function Slice(text: string, span: (nat, nat)): string {
    if span.0 <= span.1 <= |text| then text[span.0..span.1] else ""
  }

  function Slices(text: string, spans: seq<(nat, nat)>): (r: seq<string>)
    ensures |r| == |spans|
  {
    seq(|spans|, i requires 0 <= i < |spans| => Slice(text, spans[i]))
  }

  /** The units' texts. */
  function Pieces(u: Ucd, text: string): seq<string> { Slices(text, Units(u, text)) }

  lemma {:induction false} SlicesJoin(text: string, spans: seq<(nat, nat)>, upTo: nat)
    requires Contiguous(spans, upTo) && upTo <= |text|
    ensures Joined(Slices(text, spans)) == text[..upTo]
    ensures forall i | 0 <= i < |spans| :: spans[i].0 < spans[i].1 <= upTo
  {
    if spans != [] {
      var n := |spans| - 1;
      var last := spans[n];
      SlicesJoin(text, spans[..n], last.0);
      assert Slices(text, spans)[..n] == Slices(text, spans[..n]);
      assert text[..last.0] + text[last.0..upTo] == text[..upTo];
    }
  }

  lemma PiecesJoin(u: Ucd, text: string)
    ensures Joined(Pieces(u, text)) == text
    ensures forall i | 0 <= i < |Units(u, text)| :: Units(u, text)[i].0 < Units(u, text)[i].1 <= |text|
  {
    hide Units, Slices;
    UnitsAreContiguous(u, text);
    SlicesJoin(text, Units(u, text), |text|);
    assert text[..|text|] == text;
  }

  // ----- where composing unit by unit is composing the whole -----

  /** Every starter of the text decomposes to a text that starts with one. */
  predicate StartersDecompose(u: Ucd, text: string) {
    forall c | c in text && u.rank(c) == 0 :: StartsFresh(u, u.decomposed(c))
  }

  lemma {:induction false} DecomposedFirst(u: Ucd, text: string)
    requires text != ""
    ensures u.decomposed(text[0]) <= Decomposed(u, text)
  {
    var n := |text| - 1;
    if n > 0 {
      DecomposedFirst(u, text[..n]);
    } else {
      assert Decomposed(u, text[..0]) == "";
    }
  }

  /** A later piece starts at a cut, and with the first character of that character's decomposition. */
  lemma PieceStarts(u: Ucd, text: string, i: nat)
    requires StartersDecompose(u, text) && i < |Pieces(u, text)|
    ensures var p := Units(u, text)[i].0;
            && p < |text| && (i > 0 ==> Cut(u, text, p))
            && (i > 0 ==> StartsFresh(u, Decomposed(u, Pieces(u, text)[i]))
                          && Decomposed(u, Pieces(u, text)[i])[0] == u.decomposed(text[p])[0])
  {
    hide Starts, Decomposed;
    PiecesJoin(u, text);
    var s := Starts(u, text, |text|);
    StartsAreCuts(u, text, |text|);
    StartsAscend(u, text, |text|);
    assert s[i] in s;
    DecomposedFirst(u, Pieces(u, text)[i]);
    if i > 0 {
      assert s[0] < s[i];
      assert text[s[i]] in text;
    }
  }

  lemma PiecesAreFresh(u: Ucd, text: string)
    requires StartersDecompose(u, text)
    ensures PiecesFresh(u, Pieces(u, text))
  {
    hide Pieces, StartsFresh, StartersDecompose, Decomposed;
    forall i | 1 <= i < |Pieces(u, text)|
      ensures StartsFresh(u, Decomposed(u, Pieces(u, text)[i]))
    {
      PieceStarts(u, text, i);
    }
  }

  /** Exactly while no unit's first character forms a composite with the last starter of the unit before it. */
  lemma UnitsComposeIff(u: Ucd, text: string, weight: char -> nat)
    requires UcdOk(u, weight) && StartersDecompose(u, text)
    ensures Piecewise(u, Pieces(u, text)) == Nfkc(u, text) <==> NoneReaches(u, Pieces(u, text))
  {
    hide UcdOk, StartersDecompose, Pieces, Nfkc, Piecewise, PiecesFresh, NoneReaches;
    PiecesAreFresh(u, text);
    PiecewiseIff(u, Pieces(u, text), weight);
    PiecesJoin(u, text);
  }

  // ----- Hangul -----

  function Syllable(index: nat): char
    requires index < 11_172
  {
    (0xAC00 + index) as char
  }

  function Lead(index: nat): char
    requires index < 11_172
  {
    (0x1100 + index / 588) as char
  }

  function Vowel(index: nat): char
    requires index < 11_172
  {
    (0x1161 + index % 588 / 28) as char
  }

  function Trail(t: nat): char
    requires 1 <= t < 28
  {
    (0x11A7 + t) as char
  }

  /** Hangul composes by arithmetic: a lead and a vowel to a syllable, the syllable and a trail to another. */
  ghost predicate HangulOk(u: Ucd) {
    && JamoOk(u)
    && (forall i: nat | i < 11_172 && i % 28 == 0 ::
          && u.rank(Syllable(i)) == 0 && u.decomposed(Syllable(i)) == [Lead(i), Vowel(i)]
          && u.composite(Lead(i), Vowel(i)) == Some(Syllable(i)))
    && (forall i: nat, t: nat | i < 11_172 && i % 28 == 0 && 1 <= t < 28 ::
          u.decomposed(Trail(t)) == [Trail(t)] && u.composite(Syllable(i), Trail(t)) == Some(Syllable(i + t)))
  }

  lemma PairCanonical(u: Ucd, s: char, l: char, v: char)
    requires u.decomposed(s) == [l, v] && u.rank(v) == 0
    ensures Canonical(u, [s]) == [l, v]
  {
    assert [s][..0] == "" && [l, v][..1] == [l] && [l][..0] == "";
    assert Decomposed(u, [s]) == [l, v];
    assert Ordered(u, [l]) == [l];
  }

  lemma PairTaken(u: Ucd, s: char, l: char, v: char)
    requires u.rank(l) == 0 && u.composite(l, v) == Some(s)
    ensures TakeAll(u, EMPTY, [l, v]) == Buffer("", Some(s), "")
  {
    assert [l, v][..1] == [l] && [l][..0] == "";
    assert TakeAll(u, EMPTY, [l]) == Buffer("", Some(l), "");
  }

  lemma SyllableBuffered(u: Ucd, i: nat)
    requires HangulOk(u) && i < 11_172 && i % 28 == 0
    ensures Buffered(u, [Syllable(i)]) == Buffer("", Some(Syllable(i)), "")
  {
    hide TakeAll, Canonical;
    var s, l, v := Syllable(i), Lead(i), Vowel(i);
    assert HangulLead(l) && HangulVowel(v);
    PairCanonical(u, s, l, v);
    PairTaken(u, s, l, v);
  }

  lemma TwoUnits(u: Ucd, text: string, p: nat)
    requires 1 <= p < |text| && Cut(u, text, p) && (p == 1 || Cut(u, text, p - 1))
    ensures exists k :: 1 <= k < |Units(u, text)| && Units(u, text)[k - 1] == (p - 1, p) && Units(u, text)[k].0 == p
  {
    hide Cut;
    var s := Starts(u, text, |text|);
    StartsAreCuts(u, text, |text|);
    StartsAscend(u, text, |text|);
    var k :| 0 <= k < |s| && s[k] == p;
    var j :| 0 <= j < |s| && s[j] == p - 1;
    assert j < k;
    assert s[j] < s[j + 1];
    assert Units(u, text)[k - 1] == (p - 1, p) && Units(u, text)[k].0 == p;
  }

  lemma TrailIsCut(u: Ucd, text: string, p: nat, i: nat, t: nat)
    requires HangulOk(u) && i < 11_172 && i % 28 == 0 && 1 <= t < 28
    requires 1 <= p < |text| && text[p - 1] == Syllable(i) && text[p] == Trail(t)
    ensures Cut(u, text, p) && (p == 1 || Cut(u, text, p - 1))
  {
    assert HangulTrail(text[p]) && u.rank(text[p - 1]) == 0;
    assert !HangulLead(text[p - 1]) && !HangulVowel(text[p - 1]) && !HangulTrail(text[p - 1]);
  }

  lemma TrailFuses(u: Ucd, i: nat, t: nat)
    requires HangulOk(u) && i < 11_172 && i % 28 == 0 && 1 <= t < 28
    ensures u.decomposed(Trail(t)) == [Trail(t)] && Fuses(u, Buffered(u, [Syllable(i)]), Trail(t))
  {
    hide Buffered;
    SyllableBuffered(u, i);
    assert u.composite(Syllable(i), Trail(t)) == Some(Syllable(i + t));
  }

  /**
    A precomposed syllable without a trail and a trail behind it are parted, so that composing
    unit by unit is not composing the text.
  */
  lemma TrailBehindSyllable(u: Ucd, text: string, p: nat, i: nat, t: nat, weight: char -> nat)
    requires UcdOk(u, weight) && HangulOk(u) && StartersDecompose(u, text)
    requires i < 11_172 && i % 28 == 0 && 1 <= t < 28
    requires 1 <= p < |text| && text[p - 1] == Syllable(i) && text[p] == Trail(t)
    ensures Piecewise(u, Pieces(u, text)) != Nfkc(u, text)
  {
    hide Cut, Decomposed, UcdOk, HangulOk, StartersDecompose, Nfkc, Piecewise, Buffered, Units, Fuses;
    TrailIsCut(u, text, p, i, t);
    TwoUnits(u, text, p);
    var k :| 1 <= k < |Units(u, text)| && Units(u, text)[k - 1] == (p - 1, p) && Units(u, text)[k].0 == p;
    UnitsComposeIff(u, text, weight);
    PieceStarts(u, text, k);
    TrailFuses(u, i, t);
    var pieces := Pieces(u, text);
    assert text[p - 1..p] == [Syllable(i)];
    assert pieces[k - 1] == Slice(text, (p - 1, p));
    assert Reaches(u, pieces[k - 1], pieces[k]);
  }

  /** A starter whose decomposition is a mark is parted from the base it would join. */
  lemma MarkOnItsOwn(u: Ucd, k: char, v: char, s: char, m: char, d: char)
    requires u.rank(v) == 0 && !HangulLead(k)
    requires u.decomposed(k) == [s] && u.decomposed(v) == [m]
    requires u.rank(s) == 0 < u.rank(m) && u.composite(s, m) == Some(d)
    ensures Pieces(u, [k, v]) == [[k], [v]]
    ensures Nfkc(u, [k, v]) == [d] && Piecewise(u, Pieces(u, [k, v])) == [s, m]
  {
    hide Nfkc, Pieces;
    TwoPieces(u, k, v);
    TwoCharacters(u, k, v, s, m, d);
    var pieces := [[k], [v]];
    assert pieces[..1] == [[k]] && [[k]][..0] == [];
    assert Piecewise(u, [[k]]) == [s];
  }

  lemma TwoPieces(u: Ucd, k: char, v: char)
    requires u.rank(v) == 0 && !HangulLead(k)
    ensures Pieces(u, [k, v]) == [[k], [v]]
  {
    var text := [k, v];
    assert text[0..1] == [k] && text[1..2] == [v];
    assert Starts(u, text, 0) == [] && Starts(u, text, 1) == [0] && Starts(u, text, 2) == [0, 1];
    assert Units(u, text) == [(0, 1), (1, 2)];
  }

  lemma TwoCharacters(u: Ucd, k: char, v: char, s: char, m: char, d: char)
    requires u.decomposed(k) == [s] && u.decomposed(v) == [m]
    requires u.rank(s) == 0 < u.rank(m) && u.composite(s, m) == Some(d)
    ensures Nfkc(u, [k, v]) == [d] && Nfkc(u, [k]) == [s] && Nfkc(u, [v]) == [m]
  {
    assert [k, v][..1] == [k] && [k][..0] == "" == [v][..0];
    assert [s, m][..1] == [s] && [s][..0] == "" == [m][..0];
    assert Decomposed(u, [k]) == [s] && Decomposed(u, [v]) == [m] && Decomposed(u, [k, v]) == [s, m];
    assert Ordered(u, [s]) == [s] && Ordered(u, [m]) == [m] && Ordered(u, [s, m]) == [s, m];
    assert TakeAll(u, EMPTY, [s]) == Buffer("", Some(s), "");
    assert TakeAll(u, EMPTY, [m]) == Buffer("", None, [m]);
    assert TakeAll(u, EMPTY, [s, m]) == Buffer("", Some(d), "");
  }

  // ----- folding to words -----

  /** Case folding and the letters and numbers that stay. */
  datatype Folding = Folding(ucd: Ucd, fold: char -> string, letter: char -> bool)

  function Folded(f: Folding, text: string): string {
    if text == "" then "" else Folded(f, text[..|text| - 1]) + f.fold(text[|text| - 1])
  }

  /** The maximal runs of letters. */
  function Words(f: Folding, text: string): seq<string> {
    if text == "" then []
    else
      var n := |text| - 1;
      var before := Words(f, text[..n]);
      if !f.letter(text[n]) then before
      else if n > 0 && f.letter(text[n - 1]) && before != [] then before[|before| - 1 := before[|before| - 1] + [text[n]]]
      else before + [[text[n]]]
  }

  function Spaced(words: seq<string>): string {
    if words == [] then ""
    else if |words| == 1 then words[0]
    else Spaced(words[..|words| - 1]) + " " + words[|words| - 1]
  }

  function Tidy(f: Folding, folded: string): string { Spaced(Words(f, folded)) }

  function Normalize(f: Folding, text: string): string { Tidy(f, Folded(f, Nfkc(f.ucd, text))) }

  lemma {:induction false} WordsAreNotEmpty(f: Folding, text: string)
    ensures forall i | 0 <= i < |Words(f, text)| :: Words(f, text)[i] != ""
  {
    if text != "" {
      WordsAreNotEmpty(f, text[..|text| - 1]);
    }
  }

  lemma {:induction false} FoldedConcat(f: Folding, a: string, b: string)
    ensures Folded(f, a + b) == Folded(f, a) + Folded(f, b)
  {
    if b == "" {
      assert a + b == a;
    } else {
      var n := |b| - 1;
      FoldedConcat(f, a, b[..n]);
      assert (a + b)[..|a + b| - 1] == a + b[..n] && (a + b)[|a + b| - 1] == b[n];
      Associative(Folded(f, a), Folded(f, b[..n]), f.fold(b[n]));
    }
  }

  lemma OneFolded(f: Folding, c: char)
    ensures Folded(f, [c]) == f.fold(c) && Tidy(f, "") == ""
  {
    assert [c][..0] == "";
  }

  lemma SpacedLast(words: seq<string>, w: string, c: char)
    ensures Spaced(words + [w + [c]]) == Spaced(words + [w]) + [c]
    ensures Spaced(words + [w]) == if words == [] then w else Spaced(words) + " " + w
  {
    assert (words + [w])[..|words|] == words && (words + [w + [c]])[..|words|] == words;
  }

  lemma SpacedEmpty(words: seq<string>)
    requires forall i | 0 <= i < |words| :: words[i] != ""
    ensures Spaced(words) == "" <==> words == []
  {
  }

  /** What one more character adds: nothing, itself, or a space and itself. */
  lemma TidyStep(f: Folding, text: string, c: char)
    ensures Tidy(f, text + [c]) ==
              if !f.letter(c) then Tidy(f, text)
              else if text != "" && !f.letter(text[|text| - 1]) && Tidy(f, text) != "" then Tidy(f, text) + " " + [c]
              else Tidy(f, text) + [c]
  {
    hide Spaced;
    var words := Words(f, text);
    WordsAreNotEmpty(f, text);
    SpacedEmpty(words);
    assert (text + [c])[..|text|] == text;
    if f.letter(c) {
      if words == [] {
        SpacedLast([], [c], c);
        assert [[c]] == [] + [[c]] && Spaced([[c]]) == [c];
      } else {
        var n := |words| - 1;
        assert words == words[..n] + [words[n]];
        SpacedLast(words[..n], words[n], c);
        SpacedLast(words, [c], c);
        assert words[n := words[n] + [c]] == words[..n] + [words[n] + [c]];
      }
    }
  }

  /** Each span lies in the text and none starts or ends before the one before it. */
  predicate Ascending(spans: seq<(nat, nat)>, n: nat) {
    && (forall i | 0 <= i < |spans| :: spans[i].0 < spans[i].1 <= n)
    && (forall i, j | 0 <= i < j < |spans| :: spans[i].0 <= spans[j].0 && spans[i].1 <= spans[j].1)
  }

  /** A character is a space, or occurs in what its span folds to. */
  predicate Traced(f: Folding, text: string, c: char, span: (nat, nat)) {
    c == ' ' || (span in Units(f.ucd, text) && c in Folded(f, Nfkc(f.ucd, Slice(text, span))))
  }

  predicate TracedAll(f: Folding, text: string, characters: string, boundaries: seq<(nat, nat)>) {
    && |boundaries| == |characters|
    && Ascending(boundaries, |text|)
    && forall i | 0 <= i < |characters| :: Traced(f, text, characters[i], boundaries[i])
  }

  function Pending(boundaries: seq<(nat, nat)>, separator: Option<(nat, nat)>): seq<(nat, nat)> {
    if separator.Some? then boundaries + [separator.value] else boundaries
  }

  /** The text folded so far, as the loops hold it. */
  predicate Holds(f: Folding, text: string, folded: string, characters: string, boundaries: seq<(nat, nat)>,
                  separator: Option<(nat, nat)>)
  {
    && characters == Tidy(f, folded)
    && |boundaries| == |characters|
    && (forall i | 0 <= i < |characters| :: Traced(f, text, characters[i], boundaries[i]))
    && (separator.Some? <==> folded != "" && !f.letter(folded[|folded| - 1]))
  }

  lemma AscendingStep(spans: seq<(nat, nat)>, span: (nat, nat), n: nat)
    requires Ascending(spans + [span], n)
    ensures Ascending(spans + [span] + [span], n)
    ensures forall s | s in spans :: s.1 <= span.1
  {
    var before := spans + [span];
    var after := before + [span];
    assert before[|spans|] == span;
    assert forall i | 0 <= i < |after| :: after[i] == before[if i < |before| then i else |spans|];
    assert forall i | 0 <= i < |spans| :: spans[i] == before[i];
  }

  lemma AscendingTail(a: seq<(nat, nat)>, b: seq<(nat, nat)>, n: nat)
    requires Ascending(a + b, n)
    ensures Ascending(b, n)
  {
    assert forall i | 0 <= i < |b| :: b[i] == (a + b)[|a| + i];
  }

  lemma AscendingMerge(spans: seq<(nat, nat)>, s: (nat, nat), span: (nat, nat), n: nat)
    requires Ascending(spans + [s] + [span], n)
    ensures Ascending(spans + [(s.0, span.1)] + [span], n)
  {
    var before := spans + [s] + [span];
    var after := spans + [(s.0, span.1)] + [span];
    assert before[|spans|] == s && before[|spans| + 1] == span;
    assert forall i | 0 <= i < |after| && i != |spans| :: after[i] == before[i];
  }

  /** A letter's span behind the pending separator's, which goes into the text only when something precedes it. */
  lemma LetterSpans(boundaries: seq<(nat, nat)>, separator: Option<(nat, nat)>, span: (nat, nat), n: nat)
    requires Ascending(Pending(boundaries, separator) + [span], n)
    ensures Ascending(Pending(boundaries, separator) + [span] + [span], n)
    ensures boundaries == [] ==> Ascending(boundaries + [span] + [span], n)
  {
    hide Ascending;
    var pending := Pending(boundaries, separator);
    AscendingStep(pending, span, n);
    assert pending + [span] + [span] == pending + ([span] + [span]);
    AscendingTail(pending, [span] + [span], n);
    assert boundaries == [] ==> boundaries + [span] == [span];
  }

  lemma LetterHolds(f: Folding, text: string, folded: string, characters: string, boundaries: seq<(nat, nat)>,
                    separator: Option<(nat, nat)>, c: char, span: (nat, nat))
    requires Holds(f, text, folded, characters, boundaries, separator) && f.letter(c) && Traced(f, text, c, span)
    ensures if separator.Some? && characters != ""
            then Holds(f, text, folded + [c], characters + " " + [c], boundaries + [separator.value] + [span], None)
            else Holds(f, text, folded + [c], characters + [c], boundaries + [span], None)
  {
    hide Tidy, Traced;
    TidyStep(f, folded, c);
    if separator.Some? {
      SpaceTraced(f, text, separator.value);
    }
  }

  lemma SpaceTraced(f: Folding, text: string, span: (nat, nat))
    ensures Traced(f, text, ' ', span)
  {
  }

  lemma OtherHolds(f: Folding, text: string, folded: string, characters: string, boundaries: seq<(nat, nat)>,
                   separator: Option<(nat, nat)>, c: char, span: (nat, nat))
    requires Holds(f, text, folded, characters, boundaries, separator) && !f.letter(c)
    ensures Holds(f, text, folded + [c], characters, boundaries, Some(span))
  {
    hide Tidy;
    TidyStep(f, folded, c);
  }

  /** One unit's folded characters, with the unit as their span. */
  method AddFolded(f: Folding, text: string, span: (nat, nat), more: string, characters0: string,
                   boundaries0: seq<(nat, nat)>, separator0: Option<(nat, nat)>, ghost folded: string)
    returns (characters: string, boundaries: seq<(nat, nat)>, separator: Option<(nat, nat)>)
    requires Holds(f, text, folded, characters0, boundaries0, separator0)
    requires span in Units(f.ucd, text) && more == Folded(f, Nfkc(f.ucd, Slice(text, span)))
    requires Ascending(Pending(boundaries0, separator0) + [span], |text|)
    ensures Holds(f, text, folded + more, characters, boundaries, separator)
    ensures Ascending(Pending(boundaries, separator) + [span], |text|)
  {
    hide Holds, Folded, Nfkc, Units, Slice, Ascending;
    characters, boundaries, separator := characters0, boundaries0, separator0;
    assert folded + more[..0] == folded;
    for i := 0 to |more|
      invariant Holds(f, text, folded + more[..i], characters, boundaries, separator)
      invariant Ascending(Pending(boundaries, separator) + [span], |text|)
    {
      var c := more[i];
      assert folded + more[..i] + [c] == folded + more[..i + 1];
      LetterSpans(boundaries, separator, span, |text|);
      if f.letter(c) {
        LetterHolds(f, text, folded + more[..i], characters, boundaries, separator, c, span);
        HoldsTogether(f, text, folded + more[..i], characters, boundaries, separator);
        if separator.Some? && characters != "" {
          characters := characters + " ";
          boundaries := boundaries + [separator.value];
        }
        separator := None;
        characters := characters + [c];
        boundaries := boundaries + [span];
      } else {
        OtherHolds(f, text, folded + more[..i], characters, boundaries, separator, c, span);
        if separator.None? {
          separator := Some(span);
        } else {
          OtherHolds(f, text, folded + more[..i], characters, boundaries, separator, c, (separator.value.0, span.1));
          AscendingMerge(boundaries, separator.value, span, |text|);
          separator := Some((separator.value.0, span.1));
        }
      }
    }
    assert more[..|more|] == more;
  }

  lemma HoldsTogether(f: Folding, text: string, folded: string, characters: string, boundaries: seq<(nat, nat)>,
                      separator: Option<(nat, nat)>)
    requires Holds(f, text, folded, characters, boundaries, separator)
    ensures characters == "" ==> boundaries == []
  {
  }

  lemma HoldsNothing(f: Folding, text: string)
    ensures Holds(f, text, "", "", [], None)
  {
  }

  lemma FoldedPrefix(f: Folding, u: Ucd, pieces: seq<string>, i: nat)
    requires i < |pieces|
    ensures Folded(f, Piecewise(u, pieces[..i + 1])) == Folded(f, Piecewise(u, pieces[..i])) + Folded(f, Nfkc(u, pieces[i]))
  {
    hide Folded, Nfkc;
    assert pieces[..i + 1][..i] == pieces[..i];
    FoldedConcat(f, Piecewise(u, pieces[..i]), Nfkc(u, pieces[i]));
  }

  /** Every pending span ends where the next unit starts, or before. */
  predicate EndBy(spans: seq<(nat, nat)>, n: nat) { forall s | s in spans :: s.1 <= n }

  lemma AscendingPush(spans: seq<(nat, nat)>, span: (nat, nat), n: nat)
    requires Ascending(spans, n) && EndBy(spans, span.0) && span.0 < span.1 <= n
    ensures Ascending(spans + [span], n)
  {
    var after := spans + [span];
    assert forall i | 0 <= i < |spans| :: after[i] == spans[i] && spans[i] in spans;
  }

  lemma AscendingPop(spans: seq<(nat, nat)>, span: (nat, nat), n: nat)
    requires Ascending(spans + [span], n)
    ensures Ascending(spans, n) && EndBy(spans, span.1)
  {
    AscendingStep(spans, span, n);
    assert forall i | 0 <= i < |spans| :: spans[i] == (spans + [span])[i];
  }

  lemma {:induction false} NextStarts(spans: seq<(nat, nat)>, upTo: nat, i: nat)
    requires Contiguous(spans, upTo) && i < |spans|
    ensures spans[i].0 == if i == 0 then 0 else spans[i - 1].1
  {
    var n := |spans| - 1;
    if i < n {
      NextStarts(spans[..n], spans[n].0, i);
    }
  }

  /**
    The normalised text with the source span of every character, or nothing when what the units
    fold to is not what the text folds to.
  */
  method NormalizeWithBoundaries(f: Folding, text: string) returns (r: Option<(string, seq<(nat, nat)>)>)
    requires JamoOk(f.ucd)
    ensures r.Some? <==> Tidy(f, Folded(f, Piecewise(f.ucd, Pieces(f.ucd, text)))) == Normalize(f, text)
    ensures r.Some? ==> r.value.0 == Normalize(f, text) && TracedAll(f, text, r.value.0, r.value.1)
  {
    hide Traced, Tidy, Folded, Nfkc, Units, Slice, Ascending, EndBy, Contiguous, Holds, Piecewise;
    var units := NormalizationUnits(f.ucd, text);
    UnitsAreContiguous(f.ucd, text);
    PiecesJoin(f.ucd, text);
    var characters: string := "";
    var boundaries: seq<(nat, nat)> := [];
    var separator: Option<(nat, nat)> := None;
    ghost var pieces := Pieces(f.ucd, text);
    HoldsNothing(f, text);
    NothingFolds(f);
    assert pieces[..0] == [];
    for i := 0 to |units|
      invariant Holds(f, text, Folded(f, Piecewise(f.ucd, pieces[..i])), characters, boundaries, separator)
      invariant Ascending(Pending(boundaries, separator), |text|)
      invariant EndBy(Pending(boundaries, separator), if i == 0 then 0 else units[i - 1].1)
    {
      var span := units[i];
      NextStarts(units, |text|, i);
      AscendingPush(Pending(boundaries, separator), span, |text|);
      FoldedPrefix(f, f.ucd, pieces, i);
      assert pieces[i] == Slice(text, span);
      ghost var folded := Folded(f, Piecewise(f.ucd, pieces[..i]));
      characters, boundaries, separator :=
        AddFolded(f, text, span, Folded(f, Nfkc(f.ucd, Slice(text, span))), characters, boundaries, separator, folded);
      AscendingPop(Pending(boundaries, separator), span, |text|);
    }
    assert pieces[..|units|] == pieces;
    HoldsAll(f, text, Folded(f, Piecewise(f.ucd, pieces)), characters, boundaries, separator);
    if characters != Normalize(f, text) {
      return None;
    }
    r := Some((characters, boundaries));
  }

  lemma NothingFolds(f: Folding)
    ensures Folded(f, Piecewise(f.ucd, [])) == "" && Ascending([], 0) && forall n: nat :: Ascending([], n) && EndBy([], n)
  {
  }

  lemma HoldsAll(f: Folding, text: string, folded: string, characters: string, boundaries: seq<(nat, nat)>,
                 separator: Option<(nat, nat)>)
    requires Holds(f, text, folded, characters, boundaries, separator) && Ascending(Pending(boundaries, separator), |text|)
    ensures characters == Tidy(f, folded) && TracedAll(f, text, characters, boundaries)
  {
    hide Tidy, Traced;
    assert forall i | 0 <= i < |boundaries| :: Pending(boundaries, separator)[i] == boundaries[i];
  }

  /** Where no unit reaches back, the text is normalised with its boundaries. */
  lemma UnreachedIsNormalized(f: Folding, text: string, weight: char -> nat)
    requires UcdOk(f.ucd, weight) && StartersDecompose(f.ucd, text)
    requires NoneReaches(f.ucd, Pieces(f.ucd, text))
    ensures Tidy(f, Folded(f, Piecewise(f.ucd, Pieces(f.ucd, text)))) == Normalize(f, text)
  {
    hide Tidy, Folded, Nfkc, Pieces, Piecewise;
    UnitsComposeIff(f.ucd, text, weight);
  }
}
