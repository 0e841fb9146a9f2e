/**
  Python's order on tuples, and its stable sort.

  A sort key is a tuple whose parts are integers or strings; it is written here
  as a sequence of integer sequences, a string being its code points.
*/
module Ordering {
  type Key = seq<seq<int>>

  function Chars(s: string): (r: seq<int>)
    ensures |r| == |s| && forall i | 0 <= i < |s| :: r[i] == s[i] as int
  {
    seq(|s|, i requires 0 <= i < |s| => s[i] as int)
  }

  lemma CharsInjective(a: string, b: string)
    requires Chars(a) == Chars(b)
    ensures a == b
  {
    forall i | 0 <= i < |a|
      ensures a[i] == b[i]
    {
      assert Chars(a)[i] == Chars(b)[i];
    }
  }

  predicate PartLess(a: seq<int>, b: seq<int>) {
    b != [] && (a == [] || a[0] < b[0] || (a[0] == b[0] && PartLess(a[1..], b[1..])))
  }

  predicate Less(a: Key, b: Key) {
    b != [] && (a == [] || PartLess(a[0], b[0]) || (a[0] == b[0] && Less(a[1..], b[1..])))
  }

  lemma {:induction false} PartTrichotomy(a: seq<int>, b: seq<int>)
    ensures PartLess(a, b) || a == b || PartLess(b, a)
    ensures !(PartLess(a, b) && PartLess(b, a)) && !PartLess(a, a)
  {
    if a != [] {
      PartTrichotomy(a[1..], a[1..]);
      if b != [] {
        PartTrichotomy(a[1..], b[1..]);
        assert a[0] == b[0] && a[1..] == b[1..] ==> a == [a[0]] + a[1..] == b;
      }
    }
  }

  lemma {:induction false} PartTransitive(a: seq<int>, b: seq<int>, c: seq<int>)
    requires PartLess(a, b) && PartLess(b, c)
    ensures PartLess(a, c)
  {
    if a != [] && a[0] == b[0] == c[0] {
      PartTransitive(a[1..], b[1..], c[1..]);
    }
  }

  lemma {:induction false} Trichotomy(a: Key, b: Key)
    ensures Less(a, b) || a == b || Less(b, a)
    ensures !(Less(a, b) && Less(b, a)) && !Less(a, a)
  {
    if a != [] {
      PartTrichotomy(a[0], a[0]);
      Trichotomy(a[1..], a[1..]);
      if b != [] {
        PartTrichotomy(a[0], b[0]);
        Trichotomy(a[1..], b[1..]);
        assert a[0] == b[0] && a[1..] == b[1..] ==> a == [a[0]] + a[1..] == b;
      }
    }
  }

  lemma {:induction false} Transitive(a: Key, b: Key, c: Key)
    requires Less(a, b) && Less(b, c)
    ensures Less(a, c)
  {
    if a != [] {
      PartTrichotomy(a[0], b[0]);
      PartTrichotomy(b[0], c[0]);
      PartTrichotomy(a[0], c[0]);
      if PartLess(a[0], b[0]) && PartLess(b[0], c[0]) {
        PartTransitive(a[0], b[0], c[0]);
      } else if a[0] == b[0] == c[0] {
        Transitive(a[1..], b[1..], c[1..]);
      }
    }
  }

  lemma SingleLess(x: int, y: int)
    ensures Less([[x]], [[y]]) <==> x < y
  {
    Trichotomy([[x]], [[y]]);
    if x < y {
      assert PartLess([x], [y]);
    } else if y < x {
      assert PartLess([y], [x]);
      assert Less([[y]], [[x]]);
    }
  }

  /** Alphabetical order by code point. */
  predicate Precedes(a: string, b: string) {
    b != "" && (a == "" || a[0] < b[0] || (a[0] == b[0] && Precedes(a[1..], b[1..])))
  }

  lemma {:induction false} CharsPrecede(a: string, b: string)
    ensures PartLess(Chars(a), Chars(b)) <==> Precedes(a, b)
  {
    if a != "" && b != "" {
      CharsPrecede(a[1..], b[1..]);
      assert Chars(a)[1..] == Chars(a[1..]) && Chars(b)[1..] == Chars(b[1..]);
    }
  }

  lemma TextParts(x: string, y: string)
    ensures PartLess(Chars(x), Chars(y)) <==> Precedes(x, y)
    ensures Chars(x) == Chars(y) <==> x == y
  {
    CharsPrecede(x, y);
    if Chars(x) == Chars(y) {
      CharsInjective(x, y);
    }
  }

  lemma SingleParts(x: int, y: int)
    ensures PartLess([x], [y]) <==> x < y
  {
    assert [x][1..] == [] == [y][1..];
  }

  lemma OnePart(a: seq<int>, b: seq<int>)
    ensures Less([a], [b]) <==> PartLess(a, b)
  {
    hide PartLess;
    assert [a][1..] == [] == [b][1..];
  }

  /** The first parts that differ decide. */
  lemma PartDecides(a: Key, b: Key, i: nat)
    requires i < |a| == |b|
    ensures Less(a[i..], b[i..]) <==> PartLess(a[i], b[i]) || (a[i] == b[i] && Less(a[i + 1..], b[i + 1..]))
  {
    hide PartLess;
    assert a[i..][1..] == a[i + 1..] && b[i..][1..] == b[i + 1..];
  }

  /** `a` may stand before `b`. */
  predicate AtMost(a: Key, b: Key) { !Less(b, a) }

  lemma AtMostTransitive(a: Key, b: Key, c: Key)
    requires AtMost(a, b) && AtMost(b, c)
    ensures AtMost(a, c)
    ensures Less(a, b) || Less(b, c) ==> Less(a, c)
  {
    Trichotomy(a, b);
    Trichotomy(b, c);
    Trichotomy(a, c);
    if Less(a, b) && Less(b, c) {
      Transitive(a, b, c);
    }
  }

  // ----- the stable sort -----

  ghost predicate Sorted<T>(xs: seq<T>, key: T -> Key) {
    forall i, j | 0 <= i < j < |xs| :: AtMost(key(xs[i]), key(xs[j]))
  }

  ghost predicate StrictlySorted<T>(xs: seq<T>, key: T -> Key) {
    forall i, j | 0 <= i < j < |xs| :: Less(key(xs[i]), key(xs[j]))
  }

  /** Puts `x` behind everything that may stand before it. */
  function Insert<T>(xs: seq<T>, x: T, key: T -> Key): (r: seq<T>)
    ensures |r| == |xs| + 1
  {
    if xs != [] && Less(key(x), key(xs[|xs| - 1])) then Insert(xs[..|xs| - 1], x, key) + [xs[|xs| - 1]]
    else xs + [x]
  }

  function SortBy<T>(xs: seq<T>, key: T -> Key): (r: seq<T>)
    ensures |r| == |xs|
  {
    if xs == [] then [] else Insert(SortBy(xs[..|xs| - 1], key), xs[|xs| - 1], key)
  }

  lemma {:induction false} InsertKeepsElements<T>(xs: seq<T>, x: T, key: T -> Key)
    ensures multiset(Insert(xs, x, key)) == multiset(xs) + multiset{x}
  {
    if xs != [] && Less(key(x), key(xs[|xs| - 1])) {
      var n := |xs| - 1;
      InsertKeepsElements(xs[..n], x, key);
      assert xs == xs[..n] + [xs[n]];
    }
  }

  lemma {:induction false} SortKeepsMultiset<T>(xs: seq<T>, key: T -> Key)
    ensures multiset(SortBy(xs, key)) == multiset(xs)
  {
    if xs != [] {
      hide Insert;
      var n := |xs| - 1;
      SortKeepsMultiset(xs[..n], key);
      InsertKeepsElements(SortBy(xs[..n], key), xs[n], key);
      MultisetOfLast(xs);
    }
  }

  lemma MultisetOfLast<T>(xs: seq<T>)
    requires xs != []
    ensures multiset(xs) == multiset(xs[..|xs| - 1]) + multiset{xs[|xs| - 1]}
  {
    assert xs == xs[..|xs| - 1] + [xs[|xs| - 1]];
  }

  lemma SameMultisetSameMembers<T>(xs: seq<T>, ys: seq<T>)
    requires multiset(xs) == multiset(ys)
    ensures forall x :: x in xs <==> x in ys
  {
    forall x
      ensures x in xs <==> x in ys
    {
      assert x in xs <==> multiset(xs)[x] > 0;
      assert x in ys <==> multiset(ys)[x] > 0;
    }
  }

  lemma SortKeepsElements<T>(xs: seq<T>, key: T -> Key)
    ensures multiset(SortBy(xs, key)) == multiset(xs)
    ensures forall x :: x in SortBy(xs, key) <==> x in xs
  {
    hide SortBy;
    SortKeepsMultiset(xs, key);
    SameMultisetSameMembers(SortBy(xs, key), xs);
  }

  lemma SortedAppend<T>(xs: seq<T>, y: T, key: T -> Key)
    requires Sorted(xs, key) && forall x | x in xs :: AtMost(key(x), key(y))
    ensures Sorted(xs + [y], key)
  {
  }

  lemma InsertStaysBelow<T>(xs: seq<T>, x: T, z: T, key: T -> Key)
    requires forall y | y in xs :: AtMost(key(y), key(z))
    requires AtMost(key(x), key(z))
    ensures forall y | y in Insert(xs, x, key) :: AtMost(key(y), key(z))
  {
    hide Insert, AtMost;
    InsertKeepsElements(xs, x, key);
    forall y | y in Insert(xs, x, key)
      ensures AtMost(key(y), key(z))
    {
      assert y in multiset(Insert(xs, x, key));
    }
  }

  lemma LastIsMost<T>(xs: seq<T>, x: T, key: T -> Key)
    requires Sorted(xs, key) && (xs == [] || AtMost(key(xs[|xs| - 1]), key(x)))
    ensures forall y | y in xs :: AtMost(key(y), key(x))
  {
    hide AtMost;
    forall i | 0 <= i < |xs|
      ensures AtMost(key(xs[i]), key(x))
    {
      if i < |xs| - 1 {
        AtMostTransitive(key(xs[i]), key(xs[|xs| - 1]), key(x));
      }
    }
  }

  lemma {:induction false} InsertKeepsSorted<T>(xs: seq<T>, x: T, key: T -> Key)
    requires Sorted(xs, key)
    ensures Sorted(Insert(xs, x, key), key)
  {
    hide Less;
    if xs != [] && Less(key(x), key(xs[|xs| - 1])) {
      var n := |xs| - 1;
      var r := Insert(xs[..n], x, key);
      InsertKeepsSorted(xs[..n], x, key);
      Trichotomy(key(x), key(xs[n]));
      InsertStaysBelow(xs[..n], x, xs[n], key);
      SortedAppend(r, xs[n], key);
    } else {
      LastIsMost(xs, x, key);
      SortedAppend(xs, x, key);
    }
  }

  lemma {:induction false} SortSorts<T>(xs: seq<T>, key: T -> Key)
    ensures Sorted(SortBy(xs, key), key)
  {
    if xs != [] {
      SortSorts(xs[..|xs| - 1], key);
      InsertKeepsSorted(SortBy(xs[..|xs| - 1], key), xs[|xs| - 1], key);
    }
  }

  lemma {:induction false} SortedStays<T>(xs: seq<T>, key: T -> Key)
    requires Sorted(xs, key)
    ensures SortBy(xs, key) == xs
  {
    if xs != [] {
      var n := |xs| - 1;
      hide AtMost, Less;
      SortedStays(xs[..n], key);
      assert n > 0 ==> AtMost(key(xs[n - 1]), key(xs[n]));
      AppendStays(xs[..n], xs[n], key);
      assert xs == xs[..n] + [xs[n]];
    }
  }

  lemma AppendStays<T>(xs: seq<T>, x: T, key: T -> Key)
    requires xs == [] || AtMost(key(xs[|xs| - 1]), key(x))
    ensures Insert(xs, x, key) == xs + [x]
  {
  }

  lemma EmptyOrInhabited<T>(ys: seq<T>)
    ensures ys == [] || exists y :: y in ys
  {
    if ys != [] {
      assert ys[0] in ys;
    }
  }

  /** A strictly sorted sequence is determined by its elements. */
  lemma {:induction false} StrictlySortedUnique<T>(xs: seq<T>, ys: seq<T>, key: T -> Key)
    requires StrictlySorted(xs, key) && StrictlySorted(ys, key)
    requires forall x :: x in xs <==> x in ys
    ensures xs == ys
  {
    if xs == [] {
      EmptyOrInhabited(ys);
    } else {
      assert xs[0] in xs;
      assert ys != [];
      assert ys[0] in ys;
      FirstIsLeast(xs, ys[0], key);
      FirstIsLeast(ys, xs[0], key);
      Trichotomy(key(xs[0]), key(ys[0]));
      forall x
        ensures x in xs[1..] <==> x in ys[1..]
      {
        RestHas(xs, x, key);
        RestHas(ys, x, key);
      }
      StrictlySortedUnique(xs[1..], ys[1..], key);
      assert xs == [xs[0]] + xs[1..] && ys == [ys[0]] + ys[1..];
    }
  }

  lemma FirstIsLeast<T>(xs: seq<T>, x: T, key: T -> Key)
    requires StrictlySorted(xs, key) && x in xs
    ensures x == xs[0] || Less(key(xs[0]), key(x))
  {
    var i :| 0 <= i < |xs| && xs[i] == x;
  }

  lemma RestHas<T>(xs: seq<T>, x: T, key: T -> Key)
    requires StrictlySorted(xs, key) && xs != []
    ensures x in xs[1..] <==> x in xs && x != xs[0]
  {
    if x in xs[1..] {
      var i :| 0 <= i < |xs[1..]| && xs[1..][i] == x;
      assert Less(key(xs[0]), key(xs[i + 1]));
      Trichotomy(key(x), key(x));
    }
  }

  ghost predicate Distinct<T>(xs: seq<T>) {
    forall x | x in xs :: multiset(xs)[x] <= 1
  }

  lemma DistinctPlaces<T>(xs: seq<T>, i: nat, j: nat)
    requires Distinct(xs) && i < j < |xs|
    ensures xs[i] != xs[j]
  {
    assert xs == xs[..j] + xs[j..];
    assert xs[i] in xs[..j] && xs[j] in xs[j..];
    assert multiset(xs)[xs[i]] == multiset(xs[..j])[xs[i]] + multiset(xs[j..])[xs[i]];
  }

  lemma SortKeepsDistinct<T>(xs: seq<T>, key: T -> Key)
    requires Distinct(xs)
    ensures Distinct(SortBy(xs, key))
  {
    SortKeepsElements(xs, key);
  }

  /** Sorting elements with different keys leaves no two of them level. */
  lemma SortDistinctIsStrict<T>(xs: seq<T>, key: T -> Key)
    requires Distinct(xs)
    requires forall x, y | x in xs && y in xs && key(x) == key(y) :: x == y
    ensures StrictlySorted(SortBy(xs, key), key)
    ensures forall x :: x in SortBy(xs, key) <==> x in xs
  {
    hide SortBy, Less, PartLess, Distinct;
    var ys := SortBy(xs, key);
    SortSorts(xs, key);
    SortKeepsElements(xs, key);
    SortKeepsDistinct(xs, key);
    forall i, j | 0 <= i < j < |ys|
      ensures Less(key(ys[i]), key(ys[j]))
    {
      DistinctPlaces(ys, i, j);
      assert ys[i] in ys && ys[j] in ys;
      Trichotomy(key(ys[i]), key(ys[j]));
    }
  }

  /** A tuple of equally long halves is ordered by its first half. */
  lemma {:induction false} FirstHalfDecides(a: Key, b: Key, x: Key, y: Key)
    requires |a| == |b| && Less(a, b)
    ensures Less(a + x, b + y)
  {
    if !PartLess(a[0], b[0]) {
      FirstHalfDecides(a[1..], b[1..], x, y);
      assert (a + x)[1..] == a[1..] + x && (b + y)[1..] == b[1..] + y;
    }
  }
}
