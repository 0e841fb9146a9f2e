/**
  What the pairwise rule means: a batch of facts conflicts with nothing exactly
  when the whole story can be told so that every fact holds at every chapter it
  covers.
*/
module CanonMeaning {
  import opened Ordering
  import opened Canon

  /** The values a field has at a chapter; a SINGLE field has exactly one. */
  type World = (Scope, nat) -> set<string>

  predicate Covers(e: Event, n: nat) {
    FirstChapter(e) <= n && (e.end.Some? ==> n <= e.end.value)
  }

  ghost predicate HoldsAt(values: set<string>, e: Event) {
    if e.cardinality.Single? then
      exists v :: values == {v} && (e.op.Equals? <==> v == e.value)
    else
      e.op.Equals? <==> e.value in values
  }

  ghost predicate Holds(w: World, e: Event)
    requires Stable(e)
  {
    forall n | 1 <= n && Covers(e, n) :: HoldsAt(w(ScopeOf(e), n), e)
  }

  /** Only confirmed stable definitions bind the story. */
  predicate Binding(e: Event) { Stable(e) && e.status.Confirmed? }

  ghost predicate Models(w: World, events: seq<Event>) {
    forall e | e in events && Binding(e) :: Holds(w, e)
  }

  ghost predicate Satisfiable(events: seq<Event>) {
    exists w: World :: Models(w, events)
  }

  ghost predicate ConflictFree(events: seq<Event>) {
    forall a, b | a in events && b in events && Binding(a) && Binding(b) && SameScope(a, b) :: !HardConflict(a, b)
  }

  ghost predicate OneCardinality(events: seq<Event>) {
    forall a, b | a in events && b in events && SameScope(a, b) :: a.cardinality == b.cardinality
  }

  // ----- a story satisfying the facts has no conflicting pair -----

  lemma OverlapShares(a: Event, b: Event) returns (n: nat)
    requires WellFormed(a) && WellFormed(b) && Overlaps(a, b)
    ensures 1 <= n && Covers(a, n) && Covers(b, n)
  {
    n := Max(FirstChapter(a), FirstChapter(b));
  }

  lemma ConflictExcludes(values: set<string>, a: Event, b: Event)
    requires HardConflict(a, b)
    ensures !(HoldsAt(values, a) && HoldsAt(values, b))
  {
  }

  lemma SatisfiableIsConflictFree(w: World, events: seq<Event>)
    requires AllWellFormed(events) && Models(w, events)
    ensures ConflictFree(events)
  {
    forall a, b | a in events && b in events && Binding(a) && Binding(b) && SameScope(a, b)
      ensures !HardConflict(a, b)
    {
      hide HoldsAt, MutuallyExclusive;
      assert Holds(w, a) && Holds(w, b);
      if Overlaps(a, b) {
        var n := OverlapShares(a, b);
        assert HoldsAt(w(ScopeOf(a), n), a) && HoldsAt(w(ScopeOf(b), n), b);
        if HardConflict(a, b) {
          ConflictExcludes(w(ScopeOf(a), n), a, b);
        }
      }
    }
  }

  // ----- facts without a conflicting pair have a story -----

  /** The values asserted for a field at a chapter. */
  ghost function Asserted(events: seq<Event>, s: Scope, n: nat): set<string> {
    set e | e in events && Binding(e) && ScopeOf(e) == s && e.op.Equals? && Covers(e, n) :: e.value
  }

  ghost predicate IsSingle(events: seq<Event>, s: Scope) {
    exists e :: e in events && Binding(e) && ScopeOf(e) == s && e.cardinality.Single?
  }

  function Longest(events: seq<Event>): nat {
    if events == [] then 0 else Max(|events[0].value|, Longest(events[1..]))
  }

  /** The JSON number written with `n` ones. */
  function Ones(n: nat): (r: string)
    ensures |r| == n
  {
    seq(n, i => '1')
  }

  lemma {:induction false} LongestBounds(events: seq<Event>)
    ensures forall e | e in events :: |e.value| <= Longest(events)
  {
    if events != [] {
      LongestBounds(events[1..]);
      forall e | e in events
        ensures |e.value| <= Longest(events)
      {
        assert e == events[0] || e in events[1..];
      }
    }
  }

  /** Every asserted value holds; a SINGLE field nobody asserts takes a value nobody mentions. */
  ghost function Story(events: seq<Event>): World {
    (s: Scope, n: nat) =>
      if Asserted(events, s, n) == {} && IsSingle(events, s) then {Ones(Longest(events) + 1)}
      else Asserted(events, s, n)
  }

  lemma AssertedIsOneValue(events: seq<Event>, e: Event, n: nat, v: string)
    requires AllWellFormed(events) && ConflictFree(events) && OneCardinality(events)
    requires e in events && Binding(e) && e.cardinality.Single? && 1 <= n
    requires v in Asserted(events, ScopeOf(e), n)
    ensures Asserted(events, ScopeOf(e), n) == {v}
  {
    forall u | u in Asserted(events, ScopeOf(e), n)
      ensures u == v
    {
      var a :| a in events && Binding(a) && ScopeOf(a) == ScopeOf(e) && a.op.Equals? && Covers(a, n) && a.value == u;
      var b :| b in events && Binding(b) && ScopeOf(b) == ScopeOf(e) && b.op.Equals? && Covers(b, n) && b.value == v;
      assert a.cardinality == e.cardinality == b.cardinality;
      assert Overlaps(a, b);
      assert !HardConflict(a, b);
    }
  }

  lemma StoryHolds(events: seq<Event>, e: Event, n: nat)
    requires AllWellFormed(events) && ConflictFree(events) && OneCardinality(events)
    requires e in events && Binding(e) && 1 <= n && Covers(e, n)
    ensures HoldsAt(Story(events)(ScopeOf(e), n), e)
  {
    var s := ScopeOf(e);
    var values := Asserted(events, s, n);
    if e.op.Equals? {
      assert e.value in values;
    } else if e.value in values {
      var a :| a in events && Binding(a) && ScopeOf(a) == s && a.op.Equals? && Covers(a, n) && a.value == e.value;
      assert Overlaps(a, e) && HardConflict(a, e);
      assert false;
    }
    if e.cardinality.Single? {
      if values == {} {
        LongestBounds(events);
        assert |e.value| <= Longest(events);
        assert IsSingle(events, s);
        assert Story(events)(s, n) == {Ones(Longest(events) + 1)};
      } else {
        var v :| v in values;
        AssertedIsOneValue(events, e, n, if e.op.Equals? then e.value else v);
      }
    } else if values == {} {
      assert forall a | a in events && Binding(a) && ScopeOf(a) == s :: SameScope(a, e);
      assert !IsSingle(events, s);
    }
  }

  lemma ConflictFreeIsSatisfiable(events: seq<Event>)
    requires AllWellFormed(events) && ConflictFree(events) && OneCardinality(events)
    ensures Satisfiable(events)
  {
    forall e | e in events && Binding(e)
      ensures Holds(Story(events), e)
    {
      forall n | 1 <= n && Covers(e, n)
        ensures HoldsAt(Story(events)(ScopeOf(e), n), e)
      {
        StoryHolds(events, e, n);
      }
    }
    assert Models(Story(events), events);
  }

  /** Pairwise freedom from conflict is satisfiability of the whole set over all chapters. */
  lemma PairwiseIsSatisfiable(events: seq<Event>)
    requires AllWellFormed(events) && OneCardinality(events)
    ensures ConflictFree(events) <==> Satisfiable(events)
  {
    if Satisfiable(events) {
      var w: World :| Models(w, events);
      SatisfiableIsConflictFree(w, events);
    }
    if ConflictFree(events) {
      ConflictFreeIsSatisfiable(events);
    }
  }

  // ----- a scan, and a run of scans -----

  /** The scan of the two batches succeeds and reports nothing. */
  ghost predicate Accepts(existing: seq<Event>, incoming: seq<Event>) {
    !Mixed(existing, incoming) && forall a, b :: !Reported(existing, incoming, a, b)
  }

  lemma NotMixed(existing: seq<Event>, incoming: seq<Event>)
    ensures !Mixed(existing, incoming) <==> OneCardinality(existing + incoming)
  {
  }

  lemma AcceptsIsConflictFree(existing: seq<Event>, incoming: seq<Event>)
    requires AllWellFormed(existing) && AllWellFormed(incoming) && ConflictFree(existing)
    ensures (forall a, b :: !Reported(existing, incoming, a, b)) <==> ConflictFree(existing + incoming)
  {
    var all := existing + incoming;
    if forall a, b :: !Reported(existing, incoming, a, b) {
      forall a, b | a in all && b in all && Binding(a) && Binding(b) && SameScope(a, b)
        ensures !HardConflict(a, b)
      {
        HardConflictSymmetric(a, b);
        ReportedOnce(existing, incoming, a, b);
        Trichotomy(EventKey(a), EventKey(b));
        if EventKey(a) == EventKey(b) {
          EventKeyInjective(a, b);
        }
      }
    }
  }

  /** If the existing facts are satisfiable, a scan reports nothing exactly when all facts together are. */
  lemma ScanDecidesSatisfiability(existing: seq<Event>, incoming: seq<Event>)
    requires AllWellFormed(existing) && AllWellFormed(incoming)
    requires Satisfiable(existing) && !Mixed(existing, incoming)
    ensures Accepts(existing, incoming) <==> Satisfiable(existing + incoming)
  {
    NotMixed(existing, incoming);
    assert OneCardinality(existing);
    PairwiseIsSatisfiable(existing);
    AcceptsIsConflictFree(existing, incoming);
    PairwiseIsSatisfiable(existing + incoming);
  }

  function History(batches: seq<seq<Event>>): seq<Event> {
    if batches == [] then [] else History(batches[..|batches| - 1]) + batches[|batches| - 1]
  }

  /** Every batch was scanned against everything before it and nothing was reported. */
  ghost predicate AcceptedRun(batches: seq<seq<Event>>) {
    forall i | 0 <= i < |batches| :: AllWellFormed(batches[i]) && Accepts(History(batches[..i]), batches[i])
  }

  /** Appending only conflict-free batches keeps the whole history satisfiable. */
  lemma {:induction false} RunStaysSatisfiable(batches: seq<seq<Event>>)
    requires AcceptedRun(batches)
    ensures Satisfiable(History(batches)) && AllWellFormed(History(batches))
  {
    if batches == [] {
      ConflictFreeIsSatisfiable([]);
    } else {
      var n := |batches| - 1;
      forall i | 0 <= i < n
        ensures AllWellFormed(batches[..n][i]) && Accepts(History(batches[..n][..i]), batches[..n][i])
      {
        assert batches[..n][..i] == batches[..i];
      }
      RunStaysSatisfiable(batches[..n]);
      ScanDecidesSatisfiability(History(batches[..n]), batches[n]);
    }
  }
}
