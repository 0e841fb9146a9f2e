/**
  Canon events and the pairwise hard-conflict rule.

  A value and its evidence are represented by their canonical JSON text, the
  only thing the rule looks at.
*/
module Canon {
  import opened Wrappers
  import opened Ordering

  datatype FactKind = StableDefinition | DynamicEvent | Claim

  datatype Confirmation = Confirmed | Rejected

  datatype Operator = Equals | NotEquals

  datatype Cardinality = Single | Multi

  type Scope = (string, string)

  datatype Event = Event(
    entityId: Option<string>,
    fieldPath: string,
    kind: FactKind,
    status: Confirmation,
    op: Operator,
    cardinality: Cardinality,
    start: Option<nat>,
    end: Option<nat>,
    value: string,
    evidence: string)

  datatype Conflict = Conflict(oldEvent: Event, newEvent: Event)

  datatype CanonError = MixedCardinality

  /** The checks an event passes when it is built, as far as the rule depends on them. */
  predicate WellFormed(e: Event) {
    && (e.entityId.Some? ==> e.entityId.value != "")
    && (e.kind.StableDefinition? ==> e.entityId.Some?)
    && (e.start.Some? ==> e.start.value >= 1)
    && (e.end.Some? ==> e.end.value >= 1)
    && (e.start.Some? && e.end.Some? ==> e.start.value <= e.end.value)
  }

  predicate AllWellFormed(events: seq<Event>) {
    forall e | e in events :: WellFormed(e)
  }

  function KindText(k: FactKind): string {
    match k
    case StableDefinition => "stable_definition"
    case DynamicEvent => "dynamic_event"
    case Claim => "claim"
  }

  function EventKey(e: Event): Key {
    [ Chars(if e.entityId.Some? then e.entityId.value else ""),
      Chars(e.fieldPath),
      Chars(KindText(e.kind)),
      Chars(if e.status.Confirmed? then "confirmed" else "rejected"),
      Chars(if e.op.Equals? then "equals" else "not_equals"),
      Chars(if e.cardinality.Single? then "single" else "multi"),
      if e.start.None? then [0, 1] else [1, e.start.value],
      if e.end.None? then [1, 0] else [0, e.end.value],
      Chars(e.value),
      Chars(e.evidence)]
  }

  /** Equal keys are equal events, so sorting by key leaves duplicates side by side. */
  lemma EventKeyInjective(a: Event, b: Event)
    requires WellFormed(a) && WellFormed(b) && EventKey(a) == EventKey(b)
    ensures a == b
  {
    var k, l := EventKey(a), EventKey(b);
    assert k[0] == l[0] && k[1] == l[1] && k[2] == l[2] && k[3] == l[3] && k[4] == l[4];
    assert k[5] == l[5] && k[6] == l[6] && k[7] == l[7] && k[8] == l[8] && k[9] == l[9];
    assert |k[2]| == |KindText(a.kind)| && |l[2]| == |KindText(b.kind)|;
    assert |k[3]| == if a.status.Confirmed? then 9 else 8;
    assert |l[3]| == if b.status.Confirmed? then 9 else 8;
    assert |k[4]| == if a.op.Equals? then 6 else 10;
    assert |l[4]| == if b.op.Equals? then 6 else 10;
    assert |k[5]| == if a.cardinality.Single? then 6 else 5;
    assert |l[5]| == if b.cardinality.Single? then 6 else 5;
    CharsInjective(if a.entityId.Some? then a.entityId.value else "", if b.entityId.Some? then b.entityId.value else "");
    CharsInjective(a.fieldPath, b.fieldPath);
    CharsInjective(a.value, b.value);
    CharsInjective(a.evidence, b.evidence);
    assert k[6][0] == l[6][0] && k[6][1] == l[6][1] && k[7][0] == l[7][0] && k[7][1] == l[7][1];
  }

  predicate EventLess(a: Event, b: Event) { Less(EventKey(a), EventKey(b)) }

  function PairKey(p: (Event, Event)): Key { EventKey(p.0) + EventKey(p.1) }

  // ----- the rule for one pair -----

  function FirstChapter(e: Event): nat { if e.start.None? then 1 else e.start.value }

  function Max(a: nat, b: nat): nat { if a < b then b else a }

  predicate Overlaps(a: Event, b: Event) {
    var first := Max(FirstChapter(a), FirstChapter(b));
    (a.end.Some? ==> first <= a.end.value) && (b.end.Some? ==> first <= b.end.value)
  }

  predicate MutuallyExclusive(a: Event, b: Event) {
    if a.op.Equals? && b.op.Equals? then
      a.cardinality.Single? && b.cardinality.Single? && a.value != b.value
    else
      a.op != b.op && a.value == b.value
  }

  predicate HardConflict(a: Event, b: Event) {
    Overlaps(a, b) && MutuallyExclusive(a, b)
  }

  predicate Stable(e: Event) {
    e.entityId.Some? && e.kind.StableDefinition?
  }

  function ScopeOf(e: Event): Scope
    requires e.entityId.Some?
  {
    (e.entityId.value, e.fieldPath)
  }

  predicate InScope(e: Event, s: Scope) { Stable(e) && ScopeOf(e) == s }

  predicate SameScope(a: Event, b: Event) { Stable(a) && Stable(b) && ScopeOf(a) == ScopeOf(b) }

  // ----- what a scan of two batches reports -----

  /** The pairs the scan compares: old with new, and new with a later new. */
  ghost predicate Candidate(existing: seq<Event>, incoming: seq<Event>, a: Event, b: Event) {
    && SameScope(a, b) && a.status.Confirmed? && b.status.Confirmed?
    && b in incoming && (a in existing || (a in incoming && EventLess(a, b)))
  }

  /** A hard candidate pair, in the smaller of its two orders if the scan meets it in both. */
  ghost predicate Reported(existing: seq<Event>, incoming: seq<Event>, a: Event, b: Event) {
    && Candidate(existing, incoming, a, b) && HardConflict(a, b)
    && (EventLess(a, b) || !Candidate(existing, incoming, b, a))
  }

  ghost predicate Mixed(existing: seq<Event>, incoming: seq<Event>) {
    exists a, b :: (a in existing || a in incoming) && (b in existing || b in incoming)
                   && SameScope(a, b) && a.cardinality != b.cardinality
  }

  lemma HardConflictSymmetric(a: Event, b: Event)
    ensures HardConflict(a, b) == HardConflict(b, a)
    ensures HardConflict(a, b) ==> a != b
  {
  }

  /** Each unordered hard pair that the scan compares is reported, and reported once. */
  lemma ReportedOnce(existing: seq<Event>, incoming: seq<Event>, a: Event, b: Event)
    requires AllWellFormed(existing) && AllWellFormed(incoming)
    ensures Reported(existing, incoming, a, b) || Reported(existing, incoming, b, a) <==>
              (Candidate(existing, incoming, a, b) || Candidate(existing, incoming, b, a)) && HardConflict(a, b)
    ensures !(Reported(existing, incoming, a, b) && Reported(existing, incoming, b, a))
  {
    HardConflictSymmetric(a, b);
    Trichotomy(EventKey(a), EventKey(b));
    if (Candidate(existing, incoming, a, b) || Candidate(existing, incoming, b, a)) && HardConflict(a, b) {
      if EventKey(a) == EventKey(b) {
        EventKeyInjective(a, b);
      }
    }
  }
}
