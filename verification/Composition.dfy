/**
  Compatibility composition as the Unicode Standard defines it (section 3.11: full
  decomposition, canonical ordering, canonical composition), and what it makes of a text
  taken piece by piece.
*/
module Composition {
  import opened Wrappers

  /** The character database: combining class, full compatibility decomposition, primary composites. */
  datatype Ucd = Ucd(rank: char -> nat, decomposed: char -> string, composite: (char, char) -> Option<char>)

  /** A composite decomposes into more than its first part does: `weight` counts a character's parts. */
  ghost predicate UcdOk(u: Ucd, weight: char -> nat) {
    forall a, c :: u.composite(a, c).Some? ==> weight(u.composite(a, c).value) > weight(a)
  }

  // ----- decomposition and ordering -----

  function Decomposed(u: Ucd, text: string): string {
    if text == "" then "" else Decomposed(u, text[..|text| - 1]) + u.decomposed(text[|text| - 1])
  }

  /** Puts a mark behind the marks of no higher class; a starter stays where it is. */
  function Place(u: Ucd, text: string, c: char): (r: string)
    ensures |r| == |text| + 1
  {
    var n := |text|;
    if n == 0 || u.rank(c) == 0 || u.rank(text[n - 1]) <= u.rank(c) then text + [c]
    else Place(u, text[..n - 1], c) + [text[n - 1]]
  }

  function Ordered(u: Ucd, text: string): (r: string)
    ensures |r| == |text|
  {
    if text == "" then "" else Place(u, Ordered(u, text[..|text| - 1]), text[|text| - 1])
  }

  function Canonical(u: Ucd, text: string): string { Ordered(u, Decomposed(u, text)) }

  // ----- what canonical ordering does -----

  lemma OneDecomposed(u: Ucd, c: char)
    ensures Decomposed(u, [c]) == u.decomposed(c)
  {
    assert [c][..0] == "";
  }

  /** The characters of one combining class, in order. */
  function Classed(u: Ucd, text: string, class_: nat): string {
    if text == "" then ""
    else
      var n := |text| - 1;
      Classed(u, text[..n], class_) + if u.rank(text[n]) == class_ then [text[n]] else ""
  }

  lemma {:induction false} ClassedConcat(u: Ucd, a: string, b: string, class_: nat)
    ensures Classed(u, a + b, class_) == Classed(u, a, class_) + Classed(u, b, class_)
  {
    if b == "" {
      assert a + b == a;
    } else {
      var n := |b| - 1;
      ClassedConcat(u, a, b[..n], class_);
      assert (a + b)[..|a + b| - 1] == a + b[..n] && (a + b)[|a + b| - 1] == b[n];
      Associative(Classed(u, a, class_), Classed(u, b[..n], class_), if u.rank(b[n]) == class_ then [b[n]] else "");
    }
  }

  lemma {:induction false} NoneOfClass(u: Ucd, text: string, class_: nat)
    requires forall i | 0 <= i < |text| :: u.rank(text[i]) != class_
    ensures Classed(u, text, class_) == ""
  {
    if text != "" {
      NoneOfClass(u, text[..|text| - 1], class_);
    }
  }

  lemma OneClassed(u: Ucd, c: char, class_: nat)
    ensures Classed(u, [c], class_) == if u.rank(c) == class_ then [c] else ""
  {
    assert [c][..0] == "";
  }

  /** Where the character goes: behind marks of no higher class, in front of higher ones. */
  lemma {:induction false} PlaceIs(u: Ucd, text: string, c: char) returns (k: nat)
    ensures k <= |text| && Place(u, text, c) == text[..k] + [c] + text[k..]
    ensures forall i | k <= i < |text| :: u.rank(text[i]) > u.rank(c) > 0
    ensures u.rank(c) == 0 ==> k == |text|
    ensures k > 0 && u.rank(c) > 0 ==> u.rank(text[k - 1]) <= u.rank(c)
  {
    var n := |text|;
    if n == 0 || u.rank(c) == 0 || u.rank(text[n - 1]) <= u.rank(c) {
      k := n;
    } else {
      k := PlaceIs(u, text[..n - 1], c);
      assert text[..n - 1][..k] == text[..k] && text[..n - 1][k..] + [text[n - 1]] == text[k..];
    }
  }

  predicate StartersStay(u: Ucd, text: string, r: string) {
    && |r| == |text| && multiset(r) == multiset(text)
    && (forall i | 0 <= i < |text| :: u.rank(text[i]) == 0 <==> u.rank(r[i]) == 0)
    && (forall i | 0 <= i < |text| && u.rank(text[i]) == 0 :: r[i] == text[i] && multiset(r[..i]) == multiset(text[..i]))
  }

  predicate MarksRise(u: Ucd, r: string) {
    forall i | 0 < i < |r| && u.rank(r[i]) > 0 :: u.rank(r[i - 1]) <= u.rank(r[i])
  }

  lemma PlacedAt(r: string, c: char, k: nat)
    requires k <= |r|
    ensures var placed := r[..k] + [c] + r[k..];
            && |placed| == |r| + 1 && multiset(placed) == multiset(r) + multiset{c}
            && (forall i | 0 <= i < k :: placed[i] == r[i])
            && placed[k] == c
            && (forall i | k < i <= |r| :: placed[i] == r[i - 1])
  {
    assert r == r[..k] + r[k..];
  }

  lemma PlaceRises(u: Ucd, r: string, c: char, k: nat)
    requires MarksRise(u, r) && k <= |r|
    requires forall i | k <= i < |r| :: u.rank(r[i]) > u.rank(c)
    requires k > 0 && u.rank(c) > 0 ==> u.rank(r[k - 1]) <= u.rank(c)
    ensures MarksRise(u, r[..k] + [c] + r[k..])
  {
    PlacedAt(r, c, k);
    var placed := r[..k] + [c] + r[k..];
    forall i | 0 < i < |placed| && u.rank(placed[i]) > 0
      ensures u.rank(placed[i - 1]) <= u.rank(placed[i])
    {
      if i > k + 1 {
        assert placed[i - 1] == r[i - 2] && placed[i] == r[i - 1];
      }
    }
  }

  lemma PlaceStays(u: Ucd, text: string, r: string, c: char, k: nat)
    requires StartersStay(u, text, r) && k <= |r|
    requires forall i | k <= i < |r| :: u.rank(r[i]) > 0 && u.rank(c) > 0
    requires u.rank(c) == 0 ==> k == |r|
    ensures StartersStay(u, text + [c], r[..k] + [c] + r[k..])
  {
    PlacedAt(r, c, k);
    var more, placed := text + [c], r[..k] + [c] + r[k..];
    forall i | 0 <= i < |more|
      ensures u.rank(more[i]) == 0 <==> u.rank(placed[i]) == 0
    {
      if k < i {
        assert u.rank(r[i - 1]) > 0;
        assert i < |text| ==> u.rank(r[i]) > 0;
      }
    }
    forall i | 0 <= i < |more| && u.rank(more[i]) == 0
      ensures placed[i] == more[i] && multiset(placed[..i]) == multiset(more[..i])
    {
      StarterStays(u, text, r, c, k, i);
    }
  }

  lemma StarterStays(u: Ucd, text: string, r: string, c: char, k: nat, i: nat)
    requires StartersStay(u, text, r) && k <= |r| && i <= |text|
    requires forall i | k <= i < |r| :: u.rank(r[i]) > 0 && u.rank(c) > 0
    requires u.rank(c) == 0 ==> k == |r|
    requires u.rank((text + [c])[i]) == 0
    ensures var more, placed := text + [c], r[..k] + [c] + r[k..];
            placed[i] == more[i] && multiset(placed[..i]) == multiset(more[..i])
  {
    var more, placed := text + [c], r[..k] + [c] + r[k..];
    if i < |text| {
      assert i < k;
      assert placed[..i] == r[..i] && more[..i] == text[..i];
    } else {
      assert placed[..i] == r && more[..i] == text;
    }
  }

  lemma PlaceKeepsClass(u: Ucd, r: string, c: char, k: nat, class_: nat)
    requires k <= |r| && forall i | k <= i < |r| :: u.rank(r[i]) > u.rank(c)
    ensures Classed(u, r[..k] + [c] + r[k..], class_) == Classed(u, r + [c], class_)
  {
    hide Classed;
    ClassedConcat(u, r[..k] + [c], r[k..], class_);
    ClassedConcat(u, r[..k], [c], class_);
    ClassedConcat(u, r[..k], r[k..], class_);
    ClassedConcat(u, r, [c], class_);
    OneClassed(u, c, class_);
    assert r[..k] + r[k..] == r;
    if u.rank(c) == class_ {
      NoneOfClass(u, r[k..], class_);
    }
  }

  /**
    Canonical ordering: starters stay where they are with the same characters before them, marks between
    them rise in class, and marks of one class keep their order.
  */
  lemma {:induction false} CanonicalOrdering(u: Ucd, text: string)
    ensures StartersStay(u, text, Ordered(u, text)) && MarksRise(u, Ordered(u, text))
    ensures forall class_: nat :: Classed(u, Ordered(u, text), class_) == Classed(u, text, class_)
  {
    hide StartersStay, MarksRise, Classed, Place;
    if text == "" {
      NothingOrdered(u);
    } else {
      var n := |text| - 1;
      CanonicalOrdering(u, text[..n]);
      var r := Ordered(u, text[..n]);
      var k := PlaceIs(u, r, text[n]);
      PlaceStays(u, text[..n], r, text[n], k);
      PlaceRises(u, r, text[n], k);
      assert text == text[..n] + [text[n]];
      forall class_: nat | true
        ensures Classed(u, Ordered(u, text), class_) == Classed(u, text, class_)
      {
        PlaceKeepsClass(u, r, text[n], k, class_);
        ClassedConcat(u, r, [text[n]], class_);
        ClassedConcat(u, text[..n], [text[n]], class_);
      }
    }
  }

  lemma NothingOrdered(u: Ucd)
    ensures StartersStay(u, "", Ordered(u, "")) && MarksRise(u, Ordered(u, ""))
  {
  }

  // ----- composition -----

  /** What is finished, the last starter, and the marks that stay behind it. */
  datatype Buffer = Buffer(done: string, last: Option<char>, marks: string)

  const EMPTY := Buffer("", None, "")

  function Output(b: Buffer): string { b.done + (if b.last.Some? then [b.last.value] else "") + b.marks }

  /** The character is not blocked from the last starter and forms a composite with it. */
  predicate Fuses(u: Ucd, b: Buffer, c: char) {
    && b.last.Some?
    && (b.marks == "" || u.rank(b.marks[|b.marks| - 1]) < u.rank(c))
    && u.composite(b.last.value, c).Some?
  }

  function Take(u: Ucd, b: Buffer, c: char): Buffer {
    if Fuses(u, b, c) then b.(last := u.composite(b.last.value, c))
    else if u.rank(c) == 0 then Buffer(Output(b), Some(c), "")
    else b.(marks := b.marks + [c])
  }

  function TakeAll(u: Ucd, b: Buffer, text: string): Buffer {
    if text == "" then b else Take(u, TakeAll(u, b, text[..|text| - 1]), text[|text| - 1])
  }

  function Compose(u: Ucd, text: string): string { Output(TakeAll(u, EMPTY, text)) }

  function Nfkc(u: Ucd, text: string): string { Compose(u, Canonical(u, text)) }

  // ----- a cut before a starter -----

  lemma Associative(x: string, y: string, z: string)
    ensures (x + y) + z == x + (y + z)
  {
  }

  lemma {:induction false} DecomposedConcat(u: Ucd, a: string, b: string)
    ensures Decomposed(u, a + b) == Decomposed(u, a) + Decomposed(u, b)
  {
    if b == "" {
      assert a + b == a;
    } else {
      var n := |b| - 1;
      DecomposedConcat(u, a, b[..n]);
      assert (a + b)[..|a + b| - 1] == a + b[..n] && (a + b)[|a + b| - 1] == b[n];
      Associative(Decomposed(u, a), Decomposed(u, b[..n]), u.decomposed(b[n]));
    }
  }

  predicate StartsFresh(u: Ucd, text: string) { text != "" && u.rank(text[0]) == 0 }

  lemma {:induction false} PlaceBehind(u: Ucd, a: string, b: string, c: char)
    requires StartsFresh(u, b)
    ensures Place(u, a + b, c) == a + Place(u, b, c) && Place(u, b, c)[0] == b[0]
  {
    var n := |b| - 1;
    assert (a + b)[..|a + b| - 1] == a + b[..n];
    if n == 0 || u.rank(c) == 0 || u.rank(b[n]) <= u.rank(c) {
      assert a + b + [c] == a + (b + [c]);
    } else {
      PlaceBehind(u, a, b[..n], c);
      assert a + Place(u, b[..n], c) + [b[n]] == a + (Place(u, b[..n], c) + [b[n]]);
    }
  }

  /** No mark is moved across a starter. */
  lemma {:induction false} OrderedConcat(u: Ucd, a: string, b: string)
    requires StartsFresh(u, b)
    ensures Ordered(u, a + b) == Ordered(u, a) + Ordered(u, b) && Ordered(u, b)[0] == b[0]
  {
    hide Place;
    var n := |b| - 1;
    assert (a + b)[..|a + b| - 1] == a + b[..n];
    if n == 0 {
      assert b[..n] == "" && a + b[..n] == a;
      PlaceStarter(u, Ordered(u, a), b[0]);
      PlaceStarter(u, "", b[0]);
      assert Ordered(u, b) == [b[0]];
    } else {
      OrderedConcat(u, a, b[..n]);
      PlaceBehind(u, Ordered(u, a), Ordered(u, b[..n]), b[n]);
    }
  }

  lemma PlaceStarter(u: Ucd, text: string, c: char)
    requires u.rank(c) == 0
    ensures Place(u, text, c) == text + [c]
  {
  }

  lemma CanonicalConcat(u: Ucd, a: string, b: string)
    requires StartsFresh(u, Decomposed(u, b))
    ensures Canonical(u, a + b) == Canonical(u, a) + Canonical(u, b)
    ensures Canonical(u, b) != "" && Canonical(u, b)[0] == Decomposed(u, b)[0]
  {
    hide Decomposed, Ordered;
    DecomposedConcat(u, a, b);
    OrderedConcat(u, Decomposed(u, a), Decomposed(u, b));
  }

  lemma {:induction false} TakeAllConcat(u: Ucd, b: Buffer, x: string, y: string)
    ensures TakeAll(u, b, x + y) == TakeAll(u, TakeAll(u, b, x), y)
  {
    hide Take;
    if y == "" {
      assert x + y == x;
    } else {
      TakeAllConcat(u, b, x, y[..|y| - 1]);
      assert (x + y)[..|x + y| - 1] == x + y[..|y| - 1];
    }
  }

  /** The buffer behind output that is already finished. */
  function Behind(done: string, b: Buffer): Buffer { b.(done := done + b.done) }

  lemma TakeBehind(u: Ucd, done: string, b: Buffer, c: char)
    ensures Take(u, Behind(done, b), c) == Behind(done, Take(u, b, c))
    ensures Output(Behind(done, b)) == done + Output(b)
  {
    assert Output(Behind(done, b)) == done + Output(b);
  }

  lemma {:induction false} TakeAllBehind(u: Ucd, done: string, b: Buffer, text: string)
    ensures TakeAll(u, Behind(done, b), text) == Behind(done, TakeAll(u, b, text))
  {
    if text != "" {
      hide Take, Behind;
      TakeAllBehind(u, done, b, text[..|text| - 1]);
      TakeBehind(u, done, TakeAll(u, b, text[..|text| - 1]), text[|text| - 1]);
    }
  }

  lemma TakeFirst(u: Ucd, b: Buffer, text: string)
    requires text != ""
    ensures TakeAll(u, b, text) == TakeAll(u, Take(u, b, text[0]), text[1..])
  {
    hide Take;
    assert text == text[..1] + text[1..];
    TakeAllConcat(u, b, text[..1], text[1..]);
    assert text[..1][..0] == "" && TakeAll(u, b, text[..1]) == Take(u, TakeAll(u, b, ""), text[0]);
  }

  /** A starter that does not fuse begins as if nothing came before it. */
  lemma UnfusedStartsOver(u: Ucd, b: Buffer, text: string)
    requires StartsFresh(u, text) && !Fuses(u, b, text[0])
    ensures TakeAll(u, b, text) == Behind(Output(b), TakeAll(u, EMPTY, text))
  {
    hide TakeAll, Output;
    TakeFirst(u, b, text);
    TakeFirst(u, EMPTY, text);
    var begun := Buffer("", Some(text[0]), "");
    assert Take(u, EMPTY, text[0]) == begun by {
      EmptyOutput();
    }
    assert Take(u, b, text[0]) == Behind(Output(b), begun);
    TakeAllBehind(u, Output(b), begun, text[1..]);
  }

  lemma EmptyOutput()
    ensures Output(EMPTY) == ""
  {
  }

  // ----- what was taken can only grow -----

  /** From `b` on, its place holds a character of at least its starter's weight. */
  ghost predicate Grown(b: Buffer, f: Buffer, w: nat, weight: char -> nat) {
    if f.done == b.done then f.last.Some? && weight(f.last.value) >= w
    else b.done < f.done && weight(f.done[|b.done|]) >= w
  }

  lemma TakeGrows(u: Ucd, b: Buffer, f: Buffer, c: char, w: nat, weight: char -> nat)
    requires UcdOk(u, weight) && Grown(b, f, w, weight)
    ensures Grown(b, Take(u, f, c), w, weight)
  {
  }

  lemma {:induction false} TakeAllGrows(u: Ucd, b: Buffer, text: string, w: nat, weight: char -> nat)
    requires UcdOk(u, weight) && b.last.Some? && weight(b.last.value) >= w
    ensures Grown(b, TakeAll(u, b, text), w, weight)
  {
    if text != "" {
      hide UcdOk, Grown, Take;
      TakeAllGrows(u, b, text[..|text| - 1], w, weight);
      TakeGrows(u, b, TakeAll(u, b, text[..|text| - 1]), text[|text| - 1], w, weight);
    } else {
      assert TakeAll(u, b, text) == b;
    }
  }

  /** A starter that fuses changes the text: the starter before it is no longer where it was. */
  lemma FusedDiffers(u: Ucd, b: Buffer, text: string, weight: char -> nat)
    requires UcdOk(u, weight) && StartsFresh(u, text) && Fuses(u, b, text[0])
    ensures forall rest: string :: Output(TakeAll(u, b, text)) != Output(b) + rest
  {
    hide TakeAll;
    TakeFirst(u, b, text);
    var grown := Take(u, b, text[0]);
    var w := weight(grown.last.value);
    TakeAllGrows(u, grown, text[1..], w, weight);
    var out := Output(TakeAll(u, b, text));
    assert |out| > |b.done| && weight(out[|b.done|]) >= w;
    forall rest: string | true
      ensures out != Output(b) + rest
    {
      assert (Output(b) + rest)[|b.done|] == b.last.value;
    }
  }

  // ----- pieces -----

  function Joined(pieces: seq<string>): string {
    if pieces == [] then "" else Joined(pieces[..|pieces| - 1]) + pieces[|pieces| - 1]
  }

  /** Composing piece by piece. */
  function Piecewise(u: Ucd, pieces: seq<string>): string {
    if pieces == [] then "" else Piecewise(u, pieces[..|pieces| - 1]) + Nfkc(u, pieces[|pieces| - 1])
  }

  function Buffered(u: Ucd, piece: string): Buffer { TakeAll(u, EMPTY, Canonical(u, piece)) }

  /** Every piece but the first decomposes to a text that starts with a starter. */
  predicate PiecesFresh(u: Ucd, pieces: seq<string>) {
    forall i | 1 <= i < |pieces| :: StartsFresh(u, Decomposed(u, pieces[i]))
  }

  /** What the piece starts with forms a composite with the last starter of the piece before it. */
  predicate Reaches(u: Ucd, before: string, piece: string) {
    Decomposed(u, piece) != "" && Fuses(u, Buffered(u, before), Decomposed(u, piece)[0])
  }

  predicate NoneReaches(u: Ucd, pieces: seq<string>) {
    forall i | 1 <= i < |pieces| :: !Reaches(u, pieces[i - 1], pieces[i])
  }

  /** While no piece reaches back, the buffer is the last piece's own behind the composed pieces before it. */
  lemma {:induction false} UnreachedBuffer(u: Ucd, pieces: seq<string>)
    requires pieces != [] && PiecesFresh(u, pieces) && NoneReaches(u, pieces)
    ensures var n := |pieces| - 1;
            Buffered(u, Joined(pieces)) == Behind(Piecewise(u, pieces[..n]), Buffered(u, pieces[n]))
    ensures Nfkc(u, Joined(pieces)) == Piecewise(u, pieces)
  {
    hide Canonical, TakeAll, Take, Fuses, Output, Decomposed;
    var n := |pieces| - 1;
    var last := pieces[n];
    if n == 0 {
      assert Joined(pieces) == Joined(pieces[..0]) + last == last;
    } else {
      assert pieces[..n][n - 1] == pieces[n - 1] && !Reaches(u, pieces[n - 1], last);
      UnreachedBuffer(u, pieces[..n]);
      CanonicalConcat(u, Joined(pieces[..n]), last);
      TakeAllConcat(u, EMPTY, Canonical(u, Joined(pieces[..n])), Canonical(u, last));
      FusesBehind(u, Piecewise(u, pieces[..n][..n - 1]), Buffered(u, pieces[n - 1]), Decomposed(u, last)[0]);
      UnfusedStartsOver(u, Buffered(u, Joined(pieces[..n])), Canonical(u, last));
    }
    OutputBehind(Piecewise(u, pieces[..n]), Buffered(u, last));
  }

  lemma FusesBehind(u: Ucd, done: string, b: Buffer, c: char)
    ensures Fuses(u, Behind(done, b), c) == Fuses(u, b, c)
  {
  }

  lemma OutputBehind(done: string, b: Buffer)
    ensures Output(Behind(done, b)) == done + Output(b)
  {
  }

  lemma {:induction false} JoinedSplits(a: seq<string>, b: seq<string>)
    ensures Joined(a + b) == Joined(a) + Joined(b)
  {
    if b == [] {
      assert a + b == a;
    } else {
      JoinedSplits(a, b[..|b| - 1]);
      assert (a + b)[..|a + b| - 1] == a + b[..|b| - 1];
    }
  }

  lemma {:induction false} PiecewiseSplits(u: Ucd, a: seq<string>, b: seq<string>)
    ensures Piecewise(u, a + b) == Piecewise(u, a) + Piecewise(u, b)
  {
    hide Nfkc;
    if b == [] {
      assert a + b == a;
    } else {
      var n := |b| - 1;
      PiecewiseSplits(u, a, b[..n]);
      assert (a + b)[..|a + b| - 1] == a + b[..n] && (a + b)[|a + b| - 1] == b[n];
      assert Piecewise(u, a) + Piecewise(u, b[..n]) + Nfkc(u, b[n]) == Piecewise(u, a) + (Piecewise(u, b[..n]) + Nfkc(u, b[n]));
    }
  }

  lemma {:induction false} JoinedFresh(u: Ucd, pieces: seq<string>)
    requires pieces != [] && forall i | 0 <= i < |pieces| :: StartsFresh(u, Decomposed(u, pieces[i]))
    ensures StartsFresh(u, Decomposed(u, Joined(pieces)))
    ensures Decomposed(u, pieces[0]) <= Decomposed(u, Joined(pieces))
  {
    hide Decomposed;
    var n := |pieces| - 1;
    DecomposedConcat(u, Joined(pieces[..n]), pieces[n]);
    if n == 0 {
      assert Joined(pieces) == pieces[0];
    } else {
      JoinedFresh(u, pieces[..n]);
    }
  }

  /** The first piece that reaches back makes the whole differ from the pieces. */
  lemma ReachedDiffers(u: Ucd, pieces: seq<string>, k: nat, weight: char -> nat)
    requires UcdOk(u, weight) && PiecesFresh(u, pieces) && 1 <= k < |pieces|
    requires NoneReaches(u, pieces[..k]) && Reaches(u, pieces[k - 1], pieces[k])
    ensures Nfkc(u, Joined(pieces)) != Piecewise(u, pieces)
  {
    hide Canonical, TakeAll, Take, Fuses, Output, Decomposed, UcdOk, Joined, Piecewise;
    var front, back := pieces[..k], pieces[k..];
    assert pieces == front + back && front[k - 1] == pieces[k - 1] && back[0] == pieces[k];
    UnreachedBuffer(u, front);
    JoinedSplits(front, back);
    PiecewiseSplits(u, front, back);
    JoinedFresh(u, back);
    CanonicalConcat(u, Joined(front), Joined(back));
    TakeAllConcat(u, EMPTY, Canonical(u, Joined(front)), Canonical(u, Joined(back)));
    FusesBehind(u, Piecewise(u, front[..k - 1]), Buffered(u, pieces[k - 1]), Decomposed(u, pieces[k])[0]);
    FusedDiffers(u, Buffered(u, Joined(front)), Canonical(u, Joined(back)), weight);
  }

  /** Composing piece by piece composes the whole exactly when no piece reaches back into the one before it. */
  lemma {:induction false} PiecewiseIff(u: Ucd, pieces: seq<string>, weight: char -> nat)
    requires UcdOk(u, weight) && PiecesFresh(u, pieces)
    ensures Nfkc(u, Joined(pieces)) == Piecewise(u, pieces) <==> NoneReaches(u, pieces)
  {
    hide Reaches, UcdOk, PiecesFresh, Nfkc, Joined, Piecewise;
    if pieces == [] {
      NothingComposes(u);
    } else if NoneReaches(u, pieces) {
      UnreachedBuffer(u, pieces);
    } else {
      var k := FirstReach(u, pieces);
      ReachedDiffers(u, pieces, k, weight);
    }
  }

  lemma NothingComposes(u: Ucd)
    ensures Nfkc(u, Joined([])) == "" == Piecewise(u, [])
  {
  }

  lemma {:induction false} FirstReach(u: Ucd, pieces: seq<string>) returns (k: nat)
    requires !NoneReaches(u, pieces)
    ensures 1 <= k < |pieces| && NoneReaches(u, pieces[..k]) && Reaches(u, pieces[k - 1], pieces[k])
  {
    hide Reaches;
    k := 1;
    while !Reaches(u, pieces[k - 1], pieces[k])
      invariant 1 <= k < |pieces|
      invariant forall i | 1 <= i < k :: !Reaches(u, pieces[i - 1], pieces[i])
      decreases |pieces| - k
    {
      k := k + 1;
    }
  }
}
