/** When confirmed patches are accepted, and which error the first bad one gives. */
module PlanningPatchAcceptance {
  import opened Wrappers
  import opened Planning
  import opened PlanningClosed
  import opened PlanningFixedPoint
  import opened PlanningPatches
  import opened PlanningRuns

  /** A node of the patch's kind under its target id. */
  predicate Aims(n: Node, q: Patch) { n.id == q.targetId && KindOf(n.body) == q.kind }

  predicate HasTarget(p: Plan, q: Patch) { exists n | n in Nodes(p) :: Aims(n, q) }

  /** The patch names a node of the aggregate nobody implemented, at its revision and hash. */
  predicate Good(p: Plan, q: Patch, implemented: set<string>) {
    && q.targetId !in implemented
    && exists n | n in Nodes(p) :: Aims(n, q) && n.revision == q.expectedRevision && n.hash == q.expectedHash
  }

  function Fault(p: Plan, q: Patch, implemented: set<string>): PatchError {
    if q.targetId in implemented then Implemented else if !HasTarget(p, q) then Missing else Stale
  }

  /** The value a node's field has after the patches, if it has the field. */
  function ValueAfter(n: Node, patches: seq<Patch>, field: string): Option<FieldValue> {
    if LastValue(patches, n.id, field).Some? then LastValue(patches, n.id, field)
    else if field in n.body.fields then Some(n.body.fields[field])
    else None
  }

  /** Every field of every node has a value its type takes. */
  ghost predicate AllFit(p: Plan, patches: seq<Patch>, fits: FieldRule) {
    forall n, field | n in Nodes(p) && ValueAfter(n, patches, field).Some? ::
      fits(KindOf(n.body), field, ValueAfter(n, patches, field).value)
  }

  lemma RefusalIs(p: Plan, q: Patch, implemented: set<string>)
    requires IdsOk(Nodes(p))
    ensures Good(p, q, implemented) <==> Refusal(p, q, implemented).None?
    ensures !Good(p, q, implemented) ==> Refusal(p, q, implemented) == Some(Fault(p, q, implemented))
  {
    hide Nodes, Level, IdsOk;
    if q.targetId in Level(p, q.kind) {
      LevelIs(p, q.kind, q.targetId);
      var m := Level(p, q.kind)[q.targetId];
      assert Aims(m, q);
      forall n | n in Nodes(p) && Aims(n, q)
        ensures n == m
      {
        LevelHas(p, q.kind, n);
      }
    } else {
      forall n | n in Nodes(p)
        ensures !Aims(n, q)
      {
        if Aims(n, q) {
          LevelHas(p, q.kind, n);
        }
      }
    }
  }

  lemma FitIs(p: Plan, patches: seq<Patch>, fits: FieldRule)
    requires IdsOk(Nodes(p)) && forall q | q in patches :: q.targetId in Level(p, q.kind)
    ensures EditsFit(p, Patched(p, patches), fits) <==> AllFit(p, patches, fits)
  {
    hide Nodes, IdsOk, Level, LastValue, FieldsOf;
    forall n, field: string | n in Nodes(p)
      ensures var f := FieldsOf(n, Patched(p, patches));
              && (field in f <==> ValueAfter(n, patches, field).Some?)
              && (field in f ==> f[field] == ValueAfter(n, patches, field).value)
    {
      PatchedFields(p, patches, n, field);
    }
  }

  lemma GoodIsKnown(p: Plan, q: Patch, implemented: set<string>)
    requires IdsOk(Nodes(p)) && Good(p, q, implemented)
    ensures q.targetId in Level(p, q.kind)
  {
    hide Nodes, Level, IdsOk;
    var n :| n in Nodes(p) && Aims(n, q);
    LevelHas(p, q.kind, n);
  }

  /** Patches are accepted exactly when every one of them is good and every field then fits its type. */
  lemma PatchesAcceptedIff(p: Plan, patches: seq<Patch>, implemented: set<string>, fits: FieldRule)
    requires Canonical(p)
    ensures ApplyPatches(p, patches, implemented, fits).Success? <==>
              patches == [] || ((forall q | q in patches :: Good(p, q, implemented)) && AllFit(p, patches, fits))
  {
    hide Nodes, IdsOk, Level, Refusal, EditsFit, Patched, Canonical, ApplyPatches, Good, AllFit;
    CanonicalIds(p);
    PatchesAccepted(p, patches, implemented, fits);
    forall q | q in patches
      ensures Good(p, q, implemented) <==> Refusal(p, q, implemented).None?
      ensures Good(p, q, implemented) ==> q.targetId in Level(p, q.kind)
    {
      RefusalIs(p, q, implemented);
      if Good(p, q, implemented) {
        GoodIsKnown(p, q, implemented);
      }
    }
    if forall q | q in patches :: Good(p, q, implemented) {
      FitIs(p, patches, fits);
    }
  }

  /** The first bad patch decides the error. */
  lemma FirstBadPatch(p: Plan, patches: seq<Patch>, implemented: set<string>, fits: FieldRule, i: nat)
    requires Canonical(p) && i < |patches| && !Good(p, patches[i], implemented)
    requires forall j | 0 <= j < i :: Good(p, patches[j], implemented)
    ensures ApplyPatches(p, patches, implemented, fits) == Failure(Fault(p, patches[i], implemented))
  {
    hide Nodes, IdsOk, Refusal, EditsFit, Patched, Canonical, Good, Fault, Normalize, Editable;
    CanonicalIds(p);
    forall j | 0 <= j < i
      ensures Refusal(p, patches[..i][j], implemented).None?
    {
      RefusalIs(p, patches[j], implemented);
    }
    NoRefusal(p, patches[..i], implemented);
    RefusalIs(p, patches[i], implemented);
    PatchStep(p, patches, implemented, i);
    StaysRefused(p, patches, implemented, i + 1);
  }

  /** Good patches add the patched head to the history on the head's basis; any bad one leaves everything as it was. */
  lemma PatchStepIs(s: State, patches: seq<Patch>, implemented: set<string>, blank: string -> bool, fits: FieldRule)
    requires Inv(s, blank) && s.history != [] && patches != []
    ensures var head := s.history[|s.history| - 1];
            var t := Next(s, ApplyPatch(patches, implemented), blank, fits);
            if (forall q | q in patches :: Good(head.plan, q, implemented)) && AllFit(head.plan, patches, fits) then
              && |t.history| == |s.history| + 1 && t.history[..|s.history|] == s.history
              && t.history[|s.history|].basis == head.basis && t.basis == s.basis && t.draft == s.draft
              && Follows(head.plan, t.history[|s.history|].plan)
            else t == s
  {
    hide Nodes, ApplyPatches, Good, AllFit, Canonical, Follows, Confirmable;
    var head := s.history[|s.history| - 1];
    assert EntryOk(head, blank);
    PatchesAcceptedIff(head.plan, patches, implemented, fits);
    if ApplyPatches(head.plan, patches, implemented, fits).Success? {
      PatchedFollows(head.plan, patches, implemented, fits);
    }
  }
}
