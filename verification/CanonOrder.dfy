/** The order of events and of the reported conflicts, field by field. */
module CanonOrder {
  import opened Wrappers
  import opened Ordering
  import opened Canon
  import opened CanonScan

  function EntityText(e: Event): string { if e.entityId.Some? then e.entityId.value else "" }

  /** Claims come first, then dynamic events, then stable definitions. */
  function KindRank(e: Event): nat { if e.kind.Claim? then 0 else if e.kind.DynamicEvent? then 1 else 2 }

  predicate StartsEarlier(a: Event, b: Event) { b.start.Some? && (a.start.None? || a.start.value < b.start.value) }

  predicate EndsEarlier(a: Event, b: Event) { a.end.Some? && (b.end.None? || a.end.value < b.end.value) }

  predicate ByEvidence(a: Event, b: Event) { a.value == b.value && Precedes(a.evidence, b.evidence) }

  predicate ByValue(a: Event, b: Event) { Precedes(a.value, b.value) || ByEvidence(a, b) }

  /** An open start comes before every chapter, an open end behind every chapter. */
  predicate ByChapters(a: Event, b: Event) {
    StartsEarlier(a, b) || (a.start == b.start && (EndsEarlier(a, b) || (a.end == b.end && ByValue(a, b))))
  }

  /** Confirmed before rejected, equals before not equals, multi before single. */
  predicate ByMarks(a: Event, b: Event) {
    || (a.status.Confirmed? && b.status.Rejected?)
    || (a.status == b.status
        && (|| (a.op.Equals? && b.op.NotEquals?)
            || (a.op == b.op
                && ((a.cardinality.Multi? && b.cardinality.Single?) || (a.cardinality == b.cardinality && ByChapters(a, b))))))
  }

  predicate ByField(a: Event, b: Event) {
    || Precedes(a.fieldPath, b.fieldPath)
    || (a.fieldPath == b.fieldPath && (KindRank(a) < KindRank(b) || (a.kind == b.kind && ByMarks(a, b))))
  }

  /** By entity, field path, kind, status, operator, cardinality, start, end, value and evidence. */
  predicate Earlier(a: Event, b: Event) {
    Precedes(EntityText(a), EntityText(b)) || (EntityText(a) == EntityText(b) && ByField(a, b))
  }

  // ----- one part of the key -----

  /** Texts with different first characters compare by those. */
  lemma InitialsDecide(x: string, y: string)
    requires x != "" && y != "" && x[0] != y[0]
    ensures PartLess(Chars(x), Chars(y)) <==> x[0] < y[0]
    ensures Chars(x) != Chars(y)
  {
    TextParts(x, y);
  }

  lemma KindParts(a: Event, b: Event)
    ensures PartLess(EventKey(a)[2], EventKey(b)[2]) <==> KindRank(a) < KindRank(b)
    ensures EventKey(a)[2] == EventKey(b)[2] <==> a.kind == b.kind
  {
    if a.kind == b.kind {
      TextParts(KindText(a.kind), KindText(b.kind));
      PartTrichotomy(Chars(KindText(a.kind)), Chars(KindText(a.kind)));
    } else {
      InitialsDecide(KindText(a.kind), KindText(b.kind));
    }
  }

  lemma MarkParts(a: Event, b: Event)
    ensures PartLess(EventKey(a)[3], EventKey(b)[3]) <==> a.status.Confirmed? && b.status.Rejected?
    ensures EventKey(a)[3] == EventKey(b)[3] <==> a.status == b.status
    ensures PartLess(EventKey(a)[4], EventKey(b)[4]) <==> a.op.Equals? && b.op.NotEquals?
    ensures EventKey(a)[4] == EventKey(b)[4] <==> a.op == b.op
    ensures PartLess(EventKey(a)[5], EventKey(b)[5]) <==> a.cardinality.Multi? && b.cardinality.Single?
    ensures EventKey(a)[5] == EventKey(b)[5] <==> a.cardinality == b.cardinality
  {
    hide PartLess, Precedes;
    InitialsDecide("confirmed", "rejected");
    InitialsDecide("rejected", "confirmed");
    InitialsDecide("equals", "not_equals");
    InitialsDecide("not_equals", "equals");
    InitialsDecide("multi", "single");
    InitialsDecide("single", "multi");
    PartTrichotomy(EventKey(a)[3], EventKey(a)[3]);
    PartTrichotomy(EventKey(a)[4], EventKey(a)[4]);
    PartTrichotomy(EventKey(a)[5], EventKey(a)[5]);
  }

  lemma PairParts(x: int, y: int, v: int, w: int)
    ensures PartLess([x, y], [v, w]) <==> x < v || (x == v && y < w)
    ensures [x, y] == [v, w] <==> x == v && y == w
  {
    hide PartLess;
    assert [x, y][0] == x && [x, y][1] == y && [v, w][0] == v && [v, w][1] == w;
    assert [x, y][1..] == [y] && [v, w][1..] == [w];
    SingleParts(y, w);
    PartStep([x, y], [v, w]);
  }

  lemma PartStep(a: seq<int>, b: seq<int>)
    requires a != [] && b != []
    ensures PartLess(a, b) <==> a[0] < b[0] || (a[0] == b[0] && PartLess(a[1..], b[1..]))
  {
  }

  lemma ChapterParts(a: Event, b: Event)
    ensures PartLess(EventKey(a)[6], EventKey(b)[6]) <==> StartsEarlier(a, b)
    ensures EventKey(a)[6] == EventKey(b)[6] <==> a.start == b.start
    ensures PartLess(EventKey(a)[7], EventKey(b)[7]) <==> EndsEarlier(a, b)
    ensures EventKey(a)[7] == EventKey(b)[7] <==> a.end == b.end
  {
    hide PartLess;
    var x, y := EventKey(a)[6], EventKey(b)[6];
    PairParts(x[0], x[1], y[0], y[1]);
    assert x == [x[0], x[1]] && y == [y[0], y[1]];
    var v, w := EventKey(a)[7], EventKey(b)[7];
    PairParts(v[0], v[1], w[0], w[1]);
    assert v == [v[0], v[1]] && w == [w[0], w[1]];
  }

  // ----- the whole key -----

  lemma ValueOrder(a: Event, b: Event)
    ensures Less(EventKey(a)[8..], EventKey(b)[8..]) <==> ByValue(a, b)
  {
    hide PartLess, Less, Precedes;
    var k, l := EventKey(a), EventKey(b);
    PartDecides(k, l, 8);
    PartDecides(k, l, 9);
    TextParts(a.value, b.value);
    TextParts(a.evidence, b.evidence);
    NothingLess(k[10..], l[10..]);
  }

  lemma NothingLess(a: Key, b: Key)
    requires b == []
    ensures !Less(a, b)
  {
  }

  lemma ChapterOrder(a: Event, b: Event)
    ensures Less(EventKey(a)[6..], EventKey(b)[6..]) <==> ByChapters(a, b)
  {
    hide PartLess, Less, Precedes, StartsEarlier, EndsEarlier, ByValue;
    PartDecides(EventKey(a), EventKey(b), 6);
    PartDecides(EventKey(a), EventKey(b), 7);
    ChapterParts(a, b);
    ValueOrder(a, b);
  }

  lemma MarkOrder(a: Event, b: Event)
    ensures Less(EventKey(a)[3..], EventKey(b)[3..]) <==> ByMarks(a, b)
  {
    hide PartLess, Less, ByChapters;
    PartDecides(EventKey(a), EventKey(b), 3);
    PartDecides(EventKey(a), EventKey(b), 4);
    PartDecides(EventKey(a), EventKey(b), 5);
    MarkParts(a, b);
    ChapterOrder(a, b);
  }

  /** Events are sorted by their fields in that order. */
  lemma EventsInOrder(a: Event, b: Event)
    ensures EventLess(a, b) <==> Earlier(a, b)
  {
    hide PartLess, Less, Precedes, ByMarks, KindRank;
    var k, l := EventKey(a), EventKey(b);
    assert k[0..] == k && l[0..] == l;
    PartDecides(k, l, 0);
    PartDecides(k, l, 1);
    PartDecides(k, l, 2);
    TextParts(EntityText(a), EntityText(b));
    TextParts(a.fieldPath, b.fieldPath);
    KindParts(a, b);
    MarkOrder(a, b);
  }

  /** Sorted conflicts go by the old event and then by the new one. */
  lemma ConflictsInOrder(r: seq<Conflict>, i: nat, j: nat)
    requires StrictlySorted(r, ConflictKey) && i < j < |r|
    requires WellFormed(r[i].oldEvent) && WellFormed(r[j].oldEvent)
    ensures Earlier(r[i].oldEvent, r[j].oldEvent) || (r[i].oldEvent == r[j].oldEvent && Earlier(r[i].newEvent, r[j].newEvent))
  {
    hide EventKey, Less, Earlier;
    var a, b, c, d := r[i].oldEvent, r[j].oldEvent, r[i].newEvent, r[j].newEvent;
    EventsInOrder(a, b);
    EventsInOrder(c, d);
    TenParts(a, b);
    assert Less(EventKey(a) + EventKey(c), EventKey(b) + EventKey(d));
    HalvesDecide(EventKey(a), EventKey(c), EventKey(b), EventKey(d));
    if EventKey(a) == EventKey(b) {
      EventKeyInjective(a, b);
    }
  }

  lemma TenParts(a: Event, b: Event)
    ensures |EventKey(a)| == 10 == |EventKey(b)|
  {
  }

  lemma {:induction false} HalvesDecide(a: Key, c: Key, b: Key, d: Key)
    requires |a| == |b| && Less(a + c, b + d)
    ensures Less(a, b) || (a == b && Less(c, d))
  {
    if a == [] {
      assert a + c == c && b + d == d;
    } else {
      assert (a + c)[1..] == a[1..] + c && (b + d)[1..] == b[1..] + d;
      PartTrichotomy(a[0], b[0]);
      if a[0] == b[0] {
        HalvesDecide(a[1..], c, b[1..], d);
        assert a == [a[0]] + a[1..] && b == [b[0]] + b[1..];
      }
    }
  }
}
