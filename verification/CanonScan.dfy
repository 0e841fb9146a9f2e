/** The scan that finds hard conflicts, loop by loop. */
module CanonScan {
  import opened Wrappers
  import opened Ordering
  import opened Canon
  import opened CanonMeaning

  lemma StrictAppend(events: seq<Event>, e: Event)
    requires StrictlySorted(events, EventKey)
    requires events != [] ==> AtMost(EventKey(events[|events| - 1]), EventKey(e)) && EventKey(events[|events| - 1]) != EventKey(e)
    ensures StrictlySorted(events + [e], EventKey)
  {
    hide EventKey, Less;
    forall j | 0 <= j < |events|
      ensures Less(EventKey(events[j]), EventKey(e))
    {
      var last := EventKey(events[|events| - 1]);
      Trichotomy(last, EventKey(e));
      if j < |events| - 1 {
        Transitive(EventKey(events[j]), last, EventKey(e));
      }
    }
  }

  /** Events sorted by key with duplicates removed. */
  method UniqueSortedEvents(events: seq<Event>) returns (unique: seq<Event>)
    requires AllWellFormed(events)
    ensures StrictlySorted(unique, EventKey)
    ensures forall e :: e in unique <==> e in events
  {
    hide EventKey, SortBy, Less;
    var ordered := SortBy(events, EventKey);
    SortSorts(events, EventKey);
    SortKeepsElements(events, EventKey);
    unique := [];
    for i := 0 to |ordered|
      invariant StrictlySorted(unique, EventKey)
      invariant forall e :: e in unique <==> e in ordered[..i]
      invariant unique == [] <==> i == 0
      invariant i > 0 ==> unique[|unique| - 1] == ordered[i - 1]
    {
      var key := EventKey(ordered[i]);
      if unique == [] || key != EventKey(unique[|unique| - 1]) {
        StrictAppend(unique, ordered[i]);
        unique := unique + [ordered[i]];
      } else {
        assert ordered[i] in ordered && ordered[i - 1] in ordered;
        EventKeyInjective(ordered[i], unique[|unique| - 1]);
      }
    }
    assert ordered[..|ordered|] == ordered;
  }

  /** The events with a property, in order. */
  function Keep(events: seq<Event>, p: Event -> bool): seq<Event> {
    if events == [] then []
    else
      var n := |events| - 1;
      Keep(events[..n], p) + if p(events[n]) then [events[n]] else []
  }

  lemma {:induction false} KeepElements(events: seq<Event>, p: Event -> bool)
    ensures forall e :: e in Keep(events, p) <==> e in events && p(e)
    ensures StrictlySorted(events, EventKey) ==> StrictlySorted(Keep(events, p), EventKey)
  {
    hide EventKey, Less;
    if events != [] {
      var n := |events| - 1;
      KeepElements(events[..n], p);
      assert events == events[..n] + [events[n]];
      if StrictlySorted(events, EventKey) {
        var front := Keep(events[..n], p);
        forall j | 0 <= j < |front|
          ensures Less(EventKey(front[j]), EventKey(events[n]))
        {
          assert front[j] in events[..n];
        }
      }
    }
  }

  function Within(events: seq<Event>, s: Scope): seq<Event> {
    Keep(events, e => InScope(e, s))
  }

  function ConfirmedOf(events: seq<Event>): seq<Event> {
    Keep(events, (e: Event) => e.status.Confirmed?)
  }

  method StableGroups(events: seq<Event>) returns (groups: map<Scope, seq<Event>>)
    ensures forall s :: s in groups <==> Within(events, s) != []
    ensures forall s | s in groups :: groups[s] == Within(events, s)
  {
    groups := map[];
    for i := 0 to |events|
      invariant forall s :: s in groups <==> Within(events[..i], s) != []
      invariant forall s | s in groups :: groups[s] == Within(events[..i], s)
    {
      assert events[..i + 1][..i] == events[..i];
      var e := events[i];
      assert forall s :: Within(events[..i + 1], s) == Within(events[..i], s) + if InScope(e, s) then [e] else [];
      if Stable(e) {
        var s := ScopeOf(e);
        groups := groups[s := (if s in groups then groups[s] else []) + [e]];
      }
    }
    assert events[..|events|] == events;
  }

  // ----- one scope -----

  ghost predicate PairIn(old_: seq<Event>, new_: seq<Event>, a: Event, b: Event) {
    b in new_ && (a in old_ || (a in new_ && EventLess(a, b)))
  }

  method CrossPairs(old_: seq<Event>, new_: seq<Event>) returns (pairs: seq<(Event, Event)>)
    ensures forall a, b :: (a, b) in pairs <==> a in old_ && b in new_
  {
    pairs := [];
    for i := 0 to |old_|
      invariant forall a, b :: (a, b) in pairs <==> a in old_[..i] && b in new_
    {
      ghost var before := pairs;
      for j := 0 to |new_|
        invariant forall a, b :: (a, b) in pairs <==> (a, b) in before || (a == old_[i] && b in new_[..j])
      {
        pairs := pairs + [(old_[i], new_[j])];
      }
      assert new_[..|new_|] == new_;
    }
    assert old_[..|old_|] == old_;
  }

  /** The two-element combinations of a sequence, in order. */
  method Combinations(events: seq<Event>) returns (pairs: seq<(Event, Event)>)
    requires StrictlySorted(events, EventKey)
    ensures forall a, b :: (a, b) in pairs <==> a in events && b in events && EventLess(a, b)
  {
    hide EventKey, Less, EventLess;
    pairs := [];
    for i := 0 to |events|
      invariant forall a, b :: (a, b) in pairs <==> a in events[..i] && b in events && EventLess(a, b)
    {
      ghost var before := pairs;
      for j := i + 1 to |events|
        invariant forall a, b :: (a, b) in pairs <==> (a, b) in before || (a == events[i] && b in events[i + 1..j])
      {
        assert events[i + 1..j + 1] == events[i + 1..j] + [events[j]];
        pairs := pairs + [(events[i], events[j])];
      }
      LaterIsLarger(events, i);
    }
    assert events[..|events|] == events;
  }

  lemma LaterIsLarger(events: seq<Event>, i: nat)
    requires StrictlySorted(events, EventKey) && i < |events|
    ensures forall b :: b in events[i + 1..] <==> b in events && EventLess(events[i], b)
    ensures events[i + 1..|events|] == events[i + 1..]
  {
    forall b
      ensures b in events[i + 1..] <==> b in events && EventLess(events[i], b)
    {
      if b in events && EventLess(events[i], b) {
        var j :| 0 <= j < |events| && events[j] == b;
        Trichotomy(EventKey(events[i]), EventKey(events[j]));
        assert i < j;
        assert events[i + 1..][j - i - 1] == b;
      }
    }
  }

  function Unordered(p: (Event, Event)): (Event, Event) {
    if EventLess(p.1, p.0) then (p.1, p.0) else p
  }

  ghost predicate Hard(p: (Event, Event)) { HardConflict(p.0, p.1) }

  /** A hard pair sorts before its own reverse exactly when its first event is the smaller one. */
  lemma SmallerOrderFirst(a: Event, b: Event)
    requires EventLess(a, b)
    ensures Less(PairKey((a, b)), PairKey((b, a)))
    ensures Unordered((a, b)) == (a, b) == Unordered((b, a))
  {
    Trichotomy(EventKey(a), EventKey(b));
    FirstHalfDecides(EventKey(a), EventKey(b), EventKey(b), EventKey(a));
  }

  lemma UnorderedCases(p: (Event, Event), q: (Event, Event))
    requires Unordered(p) == Unordered(q)
    ensures p == q || p == (q.1, q.0)
  {
  }

  ghost predicate Has(found: seq<Conflict>, p: (Event, Event)) { Conflict(p.0, p.1) in found }

  /** What the conflicts found so far say about the sorted candidate pairs passed so far. */
  ghost predicate ScanSoFar(passed: seq<(Event, Event)>, found: seq<Conflict>) {
    && (forall p :: Has(found, p) ==> p in passed && Hard(p) && !Has(found, (p.1, p.0)))
    && (forall p | p in passed && Hard(p) :: Has(found, p) || Has(found, (p.1, p.0)))
    && (forall p | p in passed && Hard(p) && EventLess(p.0, p.1) :: Has(found, p))
  }

  lemma ScanStep(passed: seq<(Event, Event)>, found: seq<Conflict>, p: (Event, Event), unseen: bool)
    requires ScanSoFar(passed, found) && Hard(p)
    requires forall q | q in passed :: AtMost(PairKey(q), PairKey(p))
    requires unseen <==> !Has(found, p) && !Has(found, (p.1, p.0))
    ensures ScanSoFar(passed + [p], if unseen then found + [Conflict(p.0, p.1)] else found)
  {
    hide PairKey, EventLess, HardConflict;
    HardConflictSymmetric(p.0, p.1);
    var after := if unseen then found + [Conflict(p.0, p.1)] else found;
    assert forall q :: Has(after, q) <==> Has(found, q) || (unseen && q == p);
    if EventLess(p.0, p.1) {
      SmallerOrderFirst(p.0, p.1);
      assert !AtMost(PairKey((p.1, p.0)), PairKey(p));
      assert !Has(found, (p.1, p.0));
    }
  }

  function Listed(found: seq<Conflict>): set<(Event, Event)> {
    set c | c in found :: Unordered((c.oldEvent, c.newEvent))
  }

  lemma ScanSkip(passed: seq<(Event, Event)>, found: seq<Conflict>, p: (Event, Event))
    requires ScanSoFar(passed, found) && !Hard(p)
    ensures ScanSoFar(passed + [p], found)
  {
    hide EventLess, HardConflict;
  }

  method SortedCandidates(old_: seq<Event>, new_: seq<Event>) returns (pairs: seq<(Event, Event)>)
    requires StrictlySorted(new_, EventKey)
    ensures Sorted(pairs, PairKey)
    ensures forall a, b :: (a, b) in pairs <==> PairIn(old_, new_, a, b)
  {
    hide EventKey, PairKey, EventLess, SortBy, Less;
    var cross := CrossPairs(old_, new_);
    var among := Combinations(new_);
    pairs := SortBy(cross + among, PairKey);
    SortKeepsElements(cross + among, PairKey);
    SortSorts(cross + among, PairKey);
  }

  lemma PairsOf(pairs: seq<(Event, Event)>, i: nat, old_: seq<Event>, new_: seq<Event>)
    requires i < |pairs| && Sorted(pairs, PairKey) && AllWellFormed(old_) && AllWellFormed(new_)
    requires forall a, b :: (a, b) in pairs <==> PairIn(old_, new_, a, b)
    ensures pairs[i].1 in new_ && WellFormed(pairs[i].0) && WellFormed(pairs[i].1)
    ensures forall q | q in pairs[..i] :: AtMost(PairKey(q), PairKey(pairs[i]))
    ensures pairs[..i + 1] == pairs[..i] + [pairs[i]]
  {
    hide PairKey, WellFormed, EventLess;
    assert (pairs[i].0, pairs[i].1) in pairs;
  }

  /** Hard pairs of one scope, each unordered pair once. */
  method ScopeConflicts(old_: seq<Event>, new_: seq<Event>, seen: set<(Event, Event)>)
    returns (found: seq<Conflict>, seen': set<(Event, Event)>)
    requires StrictlySorted(new_, EventKey) && AllWellFormed(old_) && AllWellFormed(new_)
    requires forall p | p in seen :: p.0 !in new_ && p.1 !in new_
    ensures seen' == seen + Listed(found)
    ensures Distinct(found)
    ensures forall a, b :: Conflict(a, b) in found <==>
              PairIn(old_, new_, a, b) && HardConflict(a, b) && (EventLess(a, b) || !PairIn(old_, new_, b, a))
  {
    hide StrictlySorted, Sorted, AllWellFormed, WellFormed, EventKey, PairKey, EventLess, Unordered, ScanSoFar;
    hide PairIn, Distinct;
    hide Overlaps, MutuallyExclusive, HardConflict;
    var pairs := SortedCandidates(old_, new_);
    found, seen' := [], seen;
    NothingScanned();
    for i := 0 to |pairs|
      invariant ScanSoFar(pairs[..i], found)
      invariant Distinct(found)
      invariant seen' == seen + Listed(found)
    {
      var p := pairs[i];
      PairsOf(pairs, i, old_, new_);
      if HardConflict(p.0, p.1) {
        HardConflictSymmetric(p.0, p.1);
        SeenMeansFound(seen, found, p, new_);
        ScanStep(pairs[..i], found, p, Unordered(p) !in seen');
        if Unordered(p) !in seen' {
          seen' := seen' + {Unordered(p)};
          DistinctAppend(found, Conflict(p.0, p.1));
          found := found + [Conflict(p.0, p.1)];
        }
      } else {
        ScanSkip(pairs[..i], found, p);
      }
    }
    assert pairs[..|pairs|] == pairs;
    forall a, b
      ensures Conflict(a, b) in found <==>
                PairIn(old_, new_, a, b) && HardConflict(a, b) && (EventLess(a, b) || !PairIn(old_, new_, b, a))
    {
      FoundIsReported(pairs, found, old_, new_, a, b);
    }
  }

  lemma NothingScanned()
    ensures ScanSoFar([], []) && Distinct<Conflict>([])
  {
  }

  lemma DistinctAppend(found: seq<Conflict>, c: Conflict)
    requires Distinct(found) && c !in found
    ensures Distinct(found + [c])
  {
  }

  lemma UnorderedSwap(a: Event, b: Event)
    requires WellFormed(a) && WellFormed(b) && a != b
    ensures Unordered((a, b)) == Unordered((b, a))
    ensures EventLess(a, b) <==> !EventLess(b, a)
  {
    hide EventKey, Less;
    Trichotomy(EventKey(a), EventKey(b));
    if EventKey(a) == EventKey(b) {
      EventKeyInjective(a, b);
    }
  }

  lemma SeenMeansFound(seen: set<(Event, Event)>, found: seq<Conflict>, p: (Event, Event), new_: seq<Event>)
    requires forall q | q in seen :: q.0 !in new_ && q.1 !in new_
    requires p.1 in new_ && p.0 != p.1 && WellFormed(p.0) && WellFormed(p.1)
    ensures Unordered(p) in seen + Listed(found) <==>
              Has(found, p) || Has(found, (p.1, p.0))
  {
    hide EventLess, WellFormed;
    var listed := Listed(found);
    UnorderedSwap(p.0, p.1);
    assert Unordered(p) == p || Unordered(p) == (p.1, p.0);
    if Unordered(p) in listed {
      var c :| c in found && Unordered((c.oldEvent, c.newEvent)) == Unordered(p);
      UnorderedCases((c.oldEvent, c.newEvent), p);
    }
    if Has(found, p) {
      assert Unordered((p.0, p.1)) in listed;
    }
    if Has(found, (p.1, p.0)) {
      assert Unordered((p.1, p.0)) in listed;
    }
  }

  lemma FoundIsReported(pairs: seq<(Event, Event)>, found: seq<Conflict>, old_: seq<Event>, new_: seq<Event>, a: Event, b: Event)
    requires ScanSoFar(pairs, found) && AllWellFormed(old_) && AllWellFormed(new_)
    requires forall x, y :: (x, y) in pairs <==> PairIn(old_, new_, x, y)
    ensures Conflict(a, b) in found <==>
              PairIn(old_, new_, a, b) && HardConflict(a, b) && (EventLess(a, b) || !PairIn(old_, new_, b, a))
  {
    hide EventLess, WellFormed, HardConflict;
    var p, q := (a, b), (b, a);
    HardConflictSymmetric(a, b);
    assert p in pairs <==> PairIn(old_, new_, a, b);
    assert q in pairs <==> PairIn(old_, new_, b, a);
    assert Has(found, p) ==> p in pairs && Hard(p) && !Has(found, (p.1, p.0));
    assert Has(found, q) ==> q in pairs && Hard(q);
    if p in pairs && Hard(p) {
      UnorderedSwap(a, b);
      assert Has(found, p) || Has(found, (p.1, p.0));
    }
  }

  // ----- the whole scan -----

  function ConflictKey(c: Conflict): Key { PairKey((c.oldEvent, c.newEvent)) }

  lemma ConflictKeyInjective(c: Conflict, d: Conflict)
    requires WellFormed(c.oldEvent) && WellFormed(c.newEvent) && WellFormed(d.oldEvent) && WellFormed(d.newEvent)
    requires ConflictKey(c) == ConflictKey(d)
    ensures c == d
  {
    assert EventKey(c.oldEvent) == ConflictKey(c)[..10] && EventKey(d.oldEvent) == ConflictKey(d)[..10];
    assert EventKey(c.newEvent) == ConflictKey(c)[10..] && EventKey(d.newEvent) == ConflictKey(d)[10..];
    EventKeyInjective(c.oldEvent, d.oldEvent);
    EventKeyInjective(c.newEvent, d.newEvent);
  }

  ghost predicate SameElements(unique: seq<Event>, events: seq<Event>) {
    forall e :: e in unique <==> e in events
  }

  /** The confirmed events of one scope, as the scan collects them. */
  lemma ConfirmedWithin(unique: seq<Event>, events: seq<Event>, s: Scope)
    requires SameElements(unique, events) && StrictlySorted(unique, EventKey) && AllWellFormed(events)
    ensures forall e :: e in Within(unique, s) <==> e in events && InScope(e, s)
    ensures var kept := ConfirmedOf(Within(unique, s));
            && (forall e :: e in kept <==> e in events && InScope(e, s) && e.status.Confirmed?)
            && StrictlySorted(kept, EventKey) && AllWellFormed(kept)
  {
    hide EventKey, Less, InScope, WellFormed, StrictlySorted, Keep;
    KeepElements(unique, e => InScope(e, s));
    KeepElements(Within(unique, s), (e: Event) => e.status.Confirmed?);
  }

  lemma ScopePairs(existing: seq<Event>, incoming: seq<Event>, s: Scope, old_: seq<Event>, new_: seq<Event>, a: Event, b: Event)
    requires forall e :: e in old_ <==> e in existing && InScope(e, s) && e.status.Confirmed?
    requires forall e :: e in new_ <==> e in incoming && InScope(e, s) && e.status.Confirmed?
    ensures PairIn(old_, new_, a, b) <==> Candidate(existing, incoming, a, b) && InScope(a, s)
  {
    hide EventLess;
  }

  ghost predicate Uniform(existing: seq<Event>, incoming: seq<Event>, s: Scope) {
    forall a, b | a in existing + incoming && b in existing + incoming && InScope(a, s) && InScope(b, s) ::
      a.cardinality == b.cardinality
  }

  /** The conflicts of the scopes done so far. */
  ghost predicate FoundIn(existing: seq<Event>, incoming: seq<Event>, conflicts: seq<Conflict>, done: set<Scope>) {
    forall a, b :: Conflict(a, b) in conflicts <==>
                     Reported(existing, incoming, a, b) && a.entityId.Some? && ScopeOf(a) in done
  }

  lemma ScopeDone(existing: seq<Event>, incoming: seq<Event>, conflicts: seq<Conflict>, done: set<Scope>, s: Scope,
                  old_: seq<Event>, new_: seq<Event>, found: seq<Conflict>)
    requires FoundIn(existing, incoming, conflicts, done) && Distinct(conflicts) && Distinct(found) && s !in done
    requires forall e :: e in old_ <==> e in existing && InScope(e, s) && e.status.Confirmed?
    requires forall e :: e in new_ <==> e in incoming && InScope(e, s) && e.status.Confirmed?
    requires forall a, b :: Conflict(a, b) in found <==>
               PairIn(old_, new_, a, b) && HardConflict(a, b) && (EventLess(a, b) || !PairIn(old_, new_, b, a))
    ensures FoundIn(existing, incoming, conflicts + found, done + {s}) && Distinct(conflicts + found)
    ensures Listed(conflicts + found) == Listed(conflicts) + Listed(found)
  {
    hide EventLess, HardConflict, Candidate, PairIn, Unordered;
    forall a, b
      ensures Conflict(a, b) in found <==> Reported(existing, incoming, a, b) && InScope(a, s)
    {
      ScopePairs(existing, incoming, s, old_, new_, a, b);
      ScopePairs(existing, incoming, s, old_, new_, b, a);
      CandidatesShareScope(existing, incoming, a, b);
      CandidatesShareScope(existing, incoming, b, a);
    }
    forall c | c in conflicts
      ensures c !in found
    {
      assert Conflict(c.oldEvent, c.newEvent) == c;
    }
    forall a, b
      ensures Conflict(a, b) in conflicts + found <==>
                Reported(existing, incoming, a, b) && a.entityId.Some? && ScopeOf(a) in done + {s}
    {
      CandidatesShareScope(existing, incoming, a, b);
    }
    DistinctConcat(conflicts, found);
  }

  lemma CandidatesShareScope(existing: seq<Event>, incoming: seq<Event>, a: Event, b: Event)
    ensures Candidate(existing, incoming, a, b) ==> SameScope(a, b)
  {
  }

  lemma DistinctConcat(a: seq<Conflict>, b: seq<Conflict>)
    requires Distinct(a) && Distinct(b) && forall c | c in a :: c !in b
    ensures Distinct(a + b)
  {
  }

  /** A pair of an earlier scope has no event in common with this one. */
  lemma SeenElsewhere(existing: seq<Event>, incoming: seq<Event>, conflicts: seq<Conflict>, done: set<Scope>, s: Scope, new_: seq<Event>)
    requires FoundIn(existing, incoming, conflicts, done) && s !in done
    requires forall e :: e in new_ <==> e in incoming && InScope(e, s) && e.status.Confirmed?
    ensures forall p | p in Listed(conflicts) :: p.0 !in new_ && p.1 !in new_
  {
    hide EventLess, HardConflict;
    forall p | p in Listed(conflicts)
      ensures p.0 !in new_ && p.1 !in new_
    {
      var c :| c in conflicts && p == Unordered((c.oldEvent, c.newEvent));
      assert Conflict(c.oldEvent, c.newEvent) in conflicts;
    }
  }

  method FindHardConflicts(existing: seq<Event>, incoming: seq<Event>) returns (r: Result<seq<Conflict>, CanonError>)
    requires AllWellFormed(existing) && AllWellFormed(incoming)
    ensures r.Failure? <==> Mixed(existing, incoming)
    ensures r.Success? ==> StrictlySorted(r.value, ConflictKey)
    ensures r.Success? ==> forall a, b :: Conflict(a, b) in r.value <==> Reported(existing, incoming, a, b)
    ensures r == Success([]) <==> Accepts(existing, incoming)
  {
    hide StrictlySorted, AllWellFormed, EventKey, EventLess, FoundIn, Listed, Distinct, InScope, HardConflict, Within;
    hide ConfirmedOf;
    hide Uniform, Mixed, SortBy, ConflictKey, Reported, Candidate;
    var olds := UniqueSortedEvents(existing);
    var news := UniqueSortedEvents(incoming);
    var oldGroups := StableGroups(olds);
    var newGroups := StableGroups(news);
    var todo, seen := oldGroups.Keys + newGroups.Keys, {};
    var conflicts: seq<Conflict> := [];
    ghost var done := {};
    NothingFound(existing, incoming);
    while todo != {}
      invariant done + todo == oldGroups.Keys + newGroups.Keys && done !! todo
      invariant forall s | s in done :: Uniform(existing, incoming, s)
      invariant FoundIn(existing, incoming, conflicts, done) && Distinct(conflicts)
      invariant seen == Listed(conflicts)
      decreases todo
    {
      var s :| s in todo;
      var oldScope := if s in oldGroups then oldGroups[s] else [];
      var newScope := if s in newGroups then newGroups[s] else [];
      ConfirmedWithin(olds, existing, s);
      ConfirmedWithin(news, incoming, s);
      var cardinalities := set e: Event | e in oldScope + newScope :: e.cardinality;
      UniformBySet(existing, incoming, s, oldScope, newScope);
      if Single in cardinalities && Multi in cardinalities {
        return Failure(MixedCardinality);
      }
      var confirmedOld, confirmedNew := ConfirmedOf(oldScope), ConfirmedOf(newScope);
      SeenElsewhere(existing, incoming, conflicts, done, s, confirmedNew);
      var found;
      found, seen := ScopeConflicts(confirmedOld, confirmedNew, seen);
      ScopeDone(existing, incoming, conflicts, done, s, confirmedOld, confirmedNew, found);
      conflicts := conflicts + found;
      todo, done := todo - {s}, done + {s};
    }
    AllScopesDone(existing, incoming, olds, news, conflicts, done);
    r := Success(SortBy(conflicts, ConflictKey));
    EmptySort(conflicts);
  }

  lemma NothingFound(existing: seq<Event>, incoming: seq<Event>)
    ensures FoundIn(existing, incoming, [], {}) && Distinct<Conflict>([]) && Listed([]) == {}
  {
  }

  lemma UniformBySet(existing: seq<Event>, incoming: seq<Event>, s: Scope, old_: seq<Event>, new_: seq<Event>)
    requires forall e :: e in old_ <==> e in existing && InScope(e, s)
    requires forall e :: e in new_ <==> e in incoming && InScope(e, s)
    ensures var cardinalities := set e: Event | e in old_ + new_ :: e.cardinality;
            if Single in cardinalities && Multi in cardinalities then Mixed(existing, incoming)
            else Uniform(existing, incoming, s)
  {
    forall a, b | a in old_ + new_ && b in old_ + new_ && a.cardinality != b.cardinality
      ensures Mixed(existing, incoming)
    {
      assert SameScope(a, b);
    }
  }

  lemma AllScopesDone(existing: seq<Event>, incoming: seq<Event>, olds: seq<Event>, news: seq<Event>,
                      conflicts: seq<Conflict>, done: set<Scope>)
    requires AllWellFormed(existing) && AllWellFormed(incoming)
    requires SameElements(olds, existing) && SameElements(news, incoming)
    requires forall s :: s in done <==> Within(olds, s) != [] || Within(news, s) != []
    requires forall s | s in done :: Uniform(existing, incoming, s)
    requires FoundIn(existing, incoming, conflicts, done) && Distinct(conflicts)
    ensures !Mixed(existing, incoming)
    ensures StrictlySorted(SortBy(conflicts, ConflictKey), ConflictKey)
    ensures forall a, b :: Conflict(a, b) in SortBy(conflicts, ConflictKey) <==> Reported(existing, incoming, a, b)
    ensures |SortBy(conflicts, ConflictKey)| == |conflicts|
    ensures (forall a, b :: !Reported(existing, incoming, a, b)) <==> conflicts == []
  {
    hide EventKey, EventLess, HardConflict, Keep, StrictlySorted, ConflictKey, SortBy, WellFormed, Distinct;
    forall e | (e in existing || e in incoming) && Stable(e)
      ensures ScopeOf(e) in done
    {
      KeepElements(olds, x => InScope(x, ScopeOf(e)));
      KeepElements(news, x => InScope(x, ScopeOf(e)));
      assert e in Within(olds, ScopeOf(e)) || e in Within(news, ScopeOf(e));
    }
    forall c, d | c in conflicts && d in conflicts && ConflictKey(c) == ConflictKey(d)
      ensures c == d
    {
      assert Conflict(c.oldEvent, c.newEvent) in conflicts && Conflict(d.oldEvent, d.newEvent) in conflicts;
      ConflictKeyInjective(c, d);
    }
    SortDistinctIsStrict(conflicts, ConflictKey);
    SortKeepsElements(conflicts, ConflictKey);
    assert |multiset(conflicts)| == |multiset(SortBy(conflicts, ConflictKey))|;
    if conflicts != [] {
      assert Conflict(conflicts[0].oldEvent, conflicts[0].newEvent) in conflicts;
    }
  }

  lemma EmptySort(conflicts: seq<Conflict>)
    ensures SortBy(conflicts, ConflictKey) == [] <==> conflicts == []
  {
  }

  /** The report depends only on which events the two batches contain. */
  lemma ReportDependsOnSets(existing: seq<Event>, incoming: seq<Event>, existing': seq<Event>, incoming': seq<Event>,
                            r: seq<Conflict>, r': seq<Conflict>)
    requires SameElements(existing, existing') && SameElements(incoming, incoming')
    requires StrictlySorted(r, ConflictKey) && StrictlySorted(r', ConflictKey)
    requires forall a, b :: Conflict(a, b) in r <==> Reported(existing, incoming, a, b)
    requires forall a, b :: Conflict(a, b) in r' <==> Reported(existing', incoming', a, b)
    ensures r == r'
    ensures Mixed(existing, incoming) <==> Mixed(existing', incoming')
  {
    hide EventLess, HardConflict, ConflictKey, StrictlySorted;
    forall c
      ensures c in r <==> c in r'
    {
      assert c == Conflict(c.oldEvent, c.newEvent);
    }
    StrictlySortedUnique(r, r', ConflictKey);
  }
}
