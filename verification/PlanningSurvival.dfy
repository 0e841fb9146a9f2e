/** What decides whether the next confirmed plan follows the last one, also across changes of the creative basis. */
module PlanningSurvival {
  import opened Wrappers
  import opened Planning
  import opened PlanningClosed
  import opened PlanningFixedPoint
  import opened PlanningIdentity
  import opened PlanningPatches
  import opened PlanningRuns

  /** The later node continues the earlier one, whatever their lifecycles. */
  predicate Traces(n: Node, m: Node) {
    && m.id == n.id && KindOf(m.body) == KindOf(n.body)
    && n.revision <= m.revision
    && (n.revision == m.revision ==> n.hash == m.hash)
  }

  /** Wherever a plan holds an id of the head, it continues the head's node. */
  predicate TracesAll(head: Plan, p: Plan) {
    forall n, m | n in Nodes(head) && m in Nodes(p) && n.id == m.id :: Traces(n, m)
  }

  /** The factory yields no id of the plan. */
  ghost predicate Avoids(ids: nat -> string, p: Plan) { forall k :: !Names(Nodes(p), ids(k)) }

  /** The content names the node by its id, and as retired if it is. */
  predicate NamesNode(content: DraftPlan, n: Node) {
    exists q | q in PlacedNodes(content) ::
      && q.node.identity.Existing? && q.node.identity.id == n.id
      && (n.lifecycle.Retired? ==> q.node.lifecycle.Retired?)
  }

  predicate NamesAll(content: DraftPlan, head: Plan) { forall n | n in Nodes(head) :: NamesNode(content, n) }

  // ----- one normalisation -----

  /** Saving judges against the head or against nothing; nothing old may then come from the factory. */
  ghost predicate Judged(confirmed: Option<Plan>, head: Plan, ids: nat -> string) {
    confirmed == Some(head) || (confirmed.None? && Avoids(ids, head))
  }

  /** A draft node that gets an id of the head is an existing node of that id. */
  lemma OldIdsAreNamed(d: DraftPlan, confirmed: Option<Plan>, previous: Plan, ids: nat -> string, head: Plan, i: nat)
    requires Accepts(d, confirmed, Some(previous), ids) && Judged(confirmed, head, ids) && i < |PlacedNodes(d)|
    requires Names(Nodes(head), Assigned(PlacedNodes(d), ids)[i])
    ensures PlacedNodes(d)[i].node.identity.Existing?
    ensures PlacedNodes(d)[i].node.identity.id == Assigned(PlacedNodes(d), ids)[i]
  {
    hide PlacedNodes, Nodes, Accepts, Assigned, IdentityOk, IsClientKey, RefsOk;
    AcceptedParts(d, confirmed, Some(previous), ids, i);
    AssignedIs(PlacedNodes(d), ids, i);
    NodeMapKeys(Nodes(head), Assigned(PlacedNodes(d), ids)[i]);
  }

  /** The last version of a node with an id of the head continues the head's node. */
  lemma BaselineTraces(c: Context, confirmed: Option<Plan>, previous: Plan, ids: nat -> string, head: Plan, n: Node)
    requires c.confirmed == PlanMap(confirmed) && c.previous == PlanMap(Some(previous))
    requires Judged(confirmed, head, ids) && IdsOk(Nodes(head)) && TracesAll(head, previous) && n in Nodes(head)
    ensures Baseline(c, n.id).Some? ==> Traces(n, Baseline(c, n.id).value)
  {
    hide Nodes, Avoids, IdsOk, Traces, NodeMap;
    NodeMapKeys(Nodes(previous), n.id);
    NodeMapOf(Nodes(head), n);
    TracesItself(n);
  }

  lemma TracesItself(n: Node)
    ensures Traces(n, n)
  {
  }

  /** A node saved under the head's id continues the head's node. */
  lemma SavedNodeTraces(d: DraftPlan, confirmed: Option<Plan>, previous: Plan, ids: nat -> string, head: Plan, n: Node, i: nat)
    requires Accepts(d, confirmed, Some(previous), ids) && Judged(confirmed, head, ids)
    requires IdsOk(Nodes(head)) && TracesAll(head, previous) && n in Nodes(head)
    requires i < |PlacedNodes(d)| && Assigned(PlacedNodes(d), ids)[i] == n.id
    ensures var c := ContextOf(d, confirmed, Some(previous), ids);
            var q := PlacedNodes(d)[i];
            && q.node.identity.Existing? && q.node.identity.id == n.id
            && Traces(n, FormalNode(c, q.node, q.parent))
            && FormalNode(c, q.node, q.parent).lifecycle == q.node.lifecycle
            && (confirmed.Some? && n.lifecycle.Retired? ==> q.node.lifecycle.Retired?)
  {
    hide PlacedNodes, Nodes, Accepts, Assigned, IdsOk, IsClientKey, RefsOk, Resolved, TracesAll, Judged, Traces, IdentityOk, NodeMap;
    hide FormalNode, Baseline, Resolve;
    var c := ContextOf(d, confirmed, Some(previous), ids);
    assert Names(Nodes(head), n.id);
    OldIdsAreNamed(d, confirmed, previous, ids, head, i);
    AcceptedParts(d, confirmed, Some(previous), ids, i);
    RefResolves(PlacedNodes(d), ids, i);
    BaselineTraces(c, confirmed, previous, ids, head, n);
    ResolveIs(c, Ref(PlacedNodes(d)[i].node), n.id);
    NodeTraces(c, PlacedNodes(d)[i].node, PlacedNodes(d)[i].parent, n);
    if confirmed.Some? {
      ConfirmedIsHead(confirmed, head, ids, n);
    }
    RetiredStays(c, PlacedNodes(d)[i].node, n.id);
  }

  lemma ResolveIs(c: Context, ref: string, id: string)
    requires ref in c.ids && c.ids[ref] == id
    ensures Resolve(c, ref) == id
  {
  }

  lemma ConfirmedIsHead(confirmed: Option<Plan>, head: Plan, ids: nat -> string, n: Node)
    requires Judged(confirmed, head, ids) && confirmed.Some? && IdsOk(Nodes(head)) && n in Nodes(head)
    ensures n.id in PlanMap(confirmed) && PlanMap(confirmed)[n.id] == n
  {
    hide Nodes;
    NodeMapOf(Nodes(head), n);
  }

  lemma RetiredStays(c: Context, d: DraftNode, id: string)
    requires IdentityOk(c, d, id)
    ensures id in c.confirmed && c.confirmed[id].lifecycle.Retired? ==> d.lifecycle.Retired?
  {
    hide Baseline;
  }

  lemma NodeTraces(c: Context, d: DraftNode, parent: string, n: Node)
    requires d.identity.Existing? && Resolve(c, Ref(d)) == n.id && IdentityOk(c, d, n.id)
    requires Baseline(c, n.id).Some? ==> Traces(n, Baseline(c, n.id).value)
    ensures Traces(n, FormalNode(c, d, parent)) && FormalNode(c, d, parent).lifecycle == d.lifecycle
  {
    hide Resolve, ResolveAll, Baseline;
    assert KindOf(FormalBody(c, d.body, parent)) == DraftKind(d.body);
  }

  /** Whatever is saved from a draft that continues the head still continues it. */
  lemma SavedTracesAll(d: DraftPlan, confirmed: Option<Plan>, previous: Plan, ids: nat -> string, head: Plan)
    requires Normalize(d, confirmed, Some(previous), ids).Success? && Judged(confirmed, head, ids)
    requires IdsOk(Nodes(head)) && TracesAll(head, previous)
    ensures TracesAll(head, Normalize(d, confirmed, Some(previous), ids).value)
  {
    hide PlacedNodes, Nodes, Accepts, Assigned, IdsOk, Resolved, Judged, Traces, FormalPlan, FormalNode, RefsOk, PlanMap;
    AcceptsRefs(d, confirmed, Some(previous), ids);
    FormalIds(d, confirmed, Some(previous), ids);
    var r := FormalPlan(ContextOf(d, confirmed, Some(previous), ids), d);
    forall n, m | n in Nodes(head) && m in Nodes(r) && n.id == m.id
      ensures Traces(n, m)
    {
      var i :| 0 <= i < |Nodes(r)| && Nodes(r)[i] == m;
      SavedNodeTraces(d, confirmed, previous, ids, head, n, i);
    }
  }

  lemma SucceedsIff(n: Node, m: Node)
    ensures Succeeds(n, m) <==> Traces(n, m) && (n.lifecycle.Retired? ==> m.lifecycle.Retired?)
  {
  }

  /** A node named by the content survives in what is saved. */
  lemma NamedSurvives(d: DraftPlan, confirmed: Option<Plan>, previous: Plan, ids: nat -> string, head: Plan, n: Node)
    requires Normalize(d, confirmed, Some(previous), ids).Success? && Judged(confirmed, head, ids)
    requires IdsOk(Nodes(head)) && TracesAll(head, previous) && n in Nodes(head) && NamesNode(d, n)
    ensures Survives(n, Normalize(d, confirmed, Some(previous), ids).value)
  {
    hide PlacedNodes, Nodes, Accepts, Assigned, IdsOk, Resolved, Judged, Traces, FormalPlan, FormalNode, RefsOk, PlanMap, TracesAll;
    hide Succeeds;
    AcceptsRefs(d, confirmed, Some(previous), ids);
    FormalIds(d, confirmed, Some(previous), ids);
    var i :| 0 <= i < |PlacedNodes(d)| && PlacedNodes(d)[i].node.identity.Existing? && PlacedNodes(d)[i].node.identity.id == n.id
             && (n.lifecycle.Retired? ==> PlacedNodes(d)[i].node.lifecycle.Retired?);
    AssignedIs(PlacedNodes(d), ids, i);
    SavedNodeTraces(d, confirmed, previous, ids, head, n, i);
    var m := Nodes(FormalPlan(ContextOf(d, confirmed, Some(previous), ids), d))[i];
    SucceedsIff(n, m);
    assert m in Nodes(FormalPlan(ContextOf(d, confirmed, Some(previous), ids), d));
  }

  /** A node that survives a save was named by its content. */
  lemma SurvivorIsNamed(d: DraftPlan, confirmed: Option<Plan>, previous: Plan, ids: nat -> string, head: Plan, n: Node)
    requires Normalize(d, confirmed, Some(previous), ids).Success? && Judged(confirmed, head, ids)
    requires IdsOk(Nodes(head)) && TracesAll(head, previous) && n in Nodes(head)
    requires Survives(n, Normalize(d, confirmed, Some(previous), ids).value)
    ensures NamesNode(d, n)
  {
    hide PlacedNodes, Nodes, Accepts, Assigned, IdsOk, Resolved, Judged, Traces, FormalPlan, FormalNode, RefsOk, PlanMap, TracesAll;
    AcceptsRefs(d, confirmed, Some(previous), ids);
    FormalIds(d, confirmed, Some(previous), ids);
    var nodes := Nodes(FormalPlan(ContextOf(d, confirmed, Some(previous), ids), d));
    var i :| 0 <= i < |nodes| && Succeeds(n, nodes[i]);
    SavedNodeTraces(d, confirmed, previous, ids, head, n, i);
    assert PlacedNodes(d)[i] in PlacedNodes(d);
  }

  /** Judged against nothing, a save follows the head exactly when its content names every node of the head, the retired ones as retired. */
  lemma SaveFollowsIff(d: DraftPlan, confirmed: Option<Plan>, previous: Plan, ids: nat -> string, head: Plan)
    requires Normalize(d, confirmed, Some(previous), ids).Success? && Judged(confirmed, head, ids)
    requires IdsOk(Nodes(head)) && TracesAll(head, previous)
    ensures Follows(head, Normalize(d, confirmed, Some(previous), ids).value) <==> NamesAll(d, head)
  {
    hide Nodes, Normalize, IdsOk, Judged, TracesAll, NamesNode, Survives;
    var r := Normalize(d, confirmed, Some(previous), ids).value;
    forall n | n in Nodes(head)
      ensures Survives(n, r) <==> NamesNode(d, n)
    {
      if NamesNode(d, n) {
        NamedSurvives(d, confirmed, previous, ids, head, n);
      }
      if Survives(n, r) {
        SurvivorIsNamed(d, confirmed, previous, ids, head, n);
      }
    }
  }

  /** Judged against the head, what is accepted names every node of it. */
  lemma JudgedNamesAll(d: DraftPlan, previous: Plan, ids: nat -> string, head: Plan)
    requires Normalize(d, Some(head), Some(previous), ids).Success?
    requires IdsOk(Nodes(head)) && TracesAll(head, previous)
    ensures NamesAll(d, head)
  {
    hide PlacedNodes, Nodes, Accepts, Assigned, IdsOk, Resolved, Traces, FormalPlan, FormalNode, RefsOk, NodeMap, TracesAll, Avoids;
    hide IdentityOk;
    forall n | n in Nodes(head)
      ensures NamesNode(d, n)
    {
      NodeMapOf(Nodes(head), n);
      var i := AcceptedAt(d, Some(head), Some(previous), ids, n.id);
      SavedNodeTraces(d, Some(head), previous, ids, head, n, i);
      assert PlacedNodes(d)[i] in PlacedNodes(d);
    }
  }

  /** Judged against nothing, a save brings back no id of the head that the draft did not hold. */
  lemma SaveAddsNothingOld(d: DraftPlan, previous: Plan, ids: nat -> string, head: Plan, n: Node)
    requires Normalize(d, None, Some(previous), ids).Success? && Avoids(ids, head) && n in Nodes(head)
    requires Names(Nodes(Normalize(d, None, Some(previous), ids).value), n.id)
    ensures Names(Nodes(previous), n.id)
  {
    hide PlacedNodes, Nodes, Accepts, Assigned, Resolved, FormalPlan, FormalNode, RefsOk, Avoids, Baseline, NodeMap, IsClientKey;
    AcceptsRefs(d, None, Some(previous), ids);
    FormalIds(d, None, Some(previous), ids);
    var c := ContextOf(d, None, Some(previous), ids);
    var nodes := Nodes(FormalPlan(c, d));
    var i :| 0 <= i < |nodes| && nodes[i].id == n.id;
    assert Names(Nodes(head), n.id);
    OldIdsAreNamed(d, None, previous, ids, head, i);
    AcceptedParts(d, None, Some(previous), ids, i);
    BaselineIsLast(c, None, Some(previous), n.id);
  }

  // ----- over runs -----

  /** The aggregate a request is judged against. */
  function JudgedAgainst(s: State, l: Label): Option<Plan> {
    if l.Save? && !HeadMatchesBasis(s) then None else Head(s)
  }

  function Content(l: Label): DraftPlan
    requires l.Save? || l.Load?
  {
    if l.Save? then l.content else l.output
  }

  function Ids(l: Label): nat -> string
    requires l.Save? || l.Load?
  {
    if l.Save? then l.saveIds else l.loadIds
  }

  /** A save or load that the normaliser accepts. */
  predicate Taken(s: State, l: Label) {
    && (l.Save? || l.Load?) && DraftIsCurrent(s)
    && Normalize(Content(l), JudgedAgainst(s, l), Some(s.draft.value.plan), Ids(l)).Success?
  }

  lemma TakenChangesDraft(s: State, l: Label, blank: string -> bool, fits: FieldRule)
    requires l.Save? || l.Load?
    ensures Taken(s, l) ==>
              var r := Normalize(Content(l), JudgedAgainst(s, l), Some(s.draft.value.plan), Ids(l)).value;
              Next(s, l, blank, fits) == s.(draft := Some(s.draft.value.(plan := r)))
    ensures !Taken(s, l) ==> Next(s, l, blank, fits) == s || Next(s, l, blank, fits) == s.(draft := None)
  {
    hide Normalize;
  }

  /** Ids given while the head belongs to another basis are new to the head. */
  ghost predicate LabelAvoids(s: State, l: Label) {
    l.Save? && Head(s).Some? && !HeadMatchesBasis(s) ==> Avoids(l.saveIds, Head(s).value)
  }

  ghost predicate RunAvoids(start: State, labels: seq<Label>, blank: string -> bool, fits: FieldRule) {
    forall k | 0 <= k < |labels| :: LabelAvoids(Run(start, labels[..k], blank, fits), labels[k])
  }

  /** The draft stands on the present head. */
  predicate Standing(s: State) { s.draft.Some? && s.history != [] && s.draft.value.headRevision == |s.history| }

  predicate DraftTraces(s: State) { Standing(s) ==> TracesAll(Head(s).value, s.draft.value.plan) }

  /**
    What the steps say about the draft they leave: it keeps the whole head if it
    was created from it, or if the last accepted content names all its nodes.
  */
  ghost predicate Keeping(start: State, labels: seq<Label>, blank: string -> bool, fits: FieldRule) {
    labels != [] &&
    var n := |labels| - 1;
    var s, l := Run(start, labels[..n], blank, fits), labels[n];
    if l.Create? && !DraftIsCurrent(s) then HeadMatchesBasis(s)
    else if Taken(s, l) && Head(s).Some? then NamesAll(Content(l), Head(s).value)
    else Keeping(start, labels[..n], blank, fits)
  }

  lemma HeadIds(s: State, blank: string -> bool)
    requires Inv(s, blank) && s.history != []
    ensures IdsOk(Nodes(Head(s).value)) && Head(s).value.volumes != []
  {
    hide Nodes, IdsOk, Follows, Shaped, LevelsOk, HashesOk, BlockClosed, ActiveClosed, DesignsReady, BlockReady;
    assert EntryOk(s.history[|s.history| - 1], blank);
  }

  lemma SameTraces(p: Plan)
    requires IdsOk(Nodes(p))
    ensures TracesAll(p, p)
  {
    hide Nodes;
  }

  lemma NothingTraces(p: Plan)
    ensures TracesAll(p, EMPTY) && (p.volumes != [] ==> !Follows(p, EMPTY))
  {
    assert Nodes(EMPTY) == [];
    if p.volumes != [] {
      var n := p.volumes[0];
      assert n in Nodes(p);
      hide Nodes;
      assert !Survives(n, EMPTY);
    }
  }

  /** A new draft is the head where the basis matches, and empty where it does not. */
  lemma CreatedKeeps(s: State, blank: string -> bool, fits: FieldRule)
    requires Inv(s, blank) && !DraftIsCurrent(s) && s.history != []
    ensures var t := Next(s, Create, blank, fits);
            && Standing(t) && Head(t) == Head(s) && DraftTraces(t)
            && (Follows(Head(t).value, t.draft.value.plan) <==> HeadMatchesBasis(s))
  {
    hide Inv, Follows, TracesAll, Nodes, IdsOk;
    HeadIds(s, blank);
    SameTraces(Head(s).value);
    FollowsItself(Head(s).value);
    NothingTraces(Head(s).value);
  }

  lemma TakenKeeps(s: State, l: Label, blank: string -> bool, fits: FieldRule)
    requires Inv(s, blank) && DraftTraces(s) && LabelAvoids(s, l) && s.history != [] && Taken(s, l)
    ensures var t := Next(s, l, blank, fits);
            && Standing(t) && Head(t) == Head(s) && DraftTraces(t)
            && (Follows(Head(t).value, t.draft.value.plan) <==> NamesAll(Content(l), Head(s).value))
  {
    hide Inv, Follows, TracesAll, Nodes, IdsOk, Normalize, Next, NamesAll, Avoids;
    HeadIds(s, blank);
    TakenChangesDraft(s, l, blank, fits);
    SavedTracesAll(Content(l), JudgedAgainst(s, l), s.draft.value.plan, Ids(l), Head(s).value);
    SaveFollowsIff(Content(l), JudgedAgainst(s, l), s.draft.value.plan, Ids(l), Head(s).value);
  }

  lemma GrownHasNoDraft(s: State, l: Label, blank: string -> bool, fits: FieldRule)
    requires Inv(s, blank) && (l.Confirm? || l.ApplyPatch?)
    ensures var t := Next(s, l, blank, fits);
            Standing(t) ==> t == s
  {
    hide HistoryOk, ApplyPatches, Confirmable, Follows, Canonical;
  }

  lemma KeepingStep(start: State, labels: seq<Label>, l: Label, blank: string -> bool, fits: FieldRule)
    ensures var s := Run(start, labels, blank, fits);
            Keeping(start, labels + [l], blank, fits) <==>
              (if l.Create? && !DraftIsCurrent(s) then HeadMatchesBasis(s)
               else if Taken(s, l) && Head(s).Some? then NamesAll(Content(l), Head(s).value)
               else Keeping(start, labels, blank, fits))
  {
    hide Run, NamesAll, Taken;
    assert (labels + [l])[..|labels|] == labels;
  }

  /** Any other step leaves a standing draft as it was. */
  lemma OtherStepsKeep(s: State, l: Label, blank: string -> bool, fits: FieldRule)
    requires Inv(s, blank) && !(l.Create? && !DraftIsCurrent(s)) && !Taken(s, l)
    ensures var t := Next(s, l, blank, fits);
            Standing(t) ==> Standing(s) && Head(t) == Head(s) && t.draft.value.plan == s.draft.value.plan
  {
    hide Inv, Taken;
    if l.Save? || l.Load? {
      hide Next;
      TakenChangesDraft(s, l, blank, fits);
    } else if l.Confirm? || l.ApplyPatch? {
      hide Next;
      GrownHasNoDraft(s, l, blank, fits);
    }
  }

  lemma AvoidsPrefix(start: State, labels: seq<Label>, blank: string -> bool, fits: FieldRule)
    requires labels != [] && RunAvoids(start, labels, blank, fits)
    ensures RunAvoids(start, labels[..|labels| - 1], blank, fits)
    ensures LabelAvoids(Run(start, labels[..|labels| - 1], blank, fits), labels[|labels| - 1])
  {
    hide Run, LabelAvoids;
    var n := |labels| - 1;
    forall k | 0 <= k < n
      ensures LabelAvoids(Run(start, labels[..n][..k], blank, fits), labels[..n][k])
    {
      assert labels[..n][..k] == labels[..k];
    }
  }

  /** In every run the standing draft follows the head exactly when the steps that made it keep the head. */
  lemma {:induction false} KeepingDecides(labels: seq<Label>, basis: nat, blank: string -> bool, fits: FieldRule)
    requires forall l | l in labels :: LabelOk(l)
    requires RunAvoids(State([], basis, None), labels, blank, fits)
    ensures var s := Run(State([], basis, None), labels, blank, fits);
            && DraftTraces(s)
            && (Standing(s) ==>
                  (Follows(Head(s).value, s.draft.value.plan) <==> Keeping(State([], basis, None), labels, blank, fits)))
  {
    hide LabelOk, RunAvoids, LabelAvoids, Keeping, Follows, TracesAll, Inv, Taken, NamesAll, HeadMatchesBasis, DraftIsCurrent, Next;
    var start := State([], basis, None);
    if labels != [] {
      var n := |labels| - 1;
      var l := labels[n];
      assert forall x | x in labels[..n] :: x in labels;
      assert l in labels;
      AvoidsPrefix(start, labels, blank, fits);
      KeepingDecides(labels[..n], basis, blank, fits);
      RunKeepsInv(labels[..n], basis, blank, fits);
      KeepingStep(start, labels[..n], l, blank, fits);
      assert labels[..n] + [l] == labels;
      KeepingOneMore(start, Run(start, labels[..n], blank, fits), labels[..n], l, blank, fits);
    }
  }

  lemma KeepingOneMore(start: State, s: State, labels: seq<Label>, l: Label, blank: string -> bool, fits: FieldRule)
    requires s == Run(start, labels, blank, fits) && Inv(s, blank) && DraftTraces(s) && LabelAvoids(s, l)
    requires Standing(s) ==> (Follows(Head(s).value, s.draft.value.plan) <==> Keeping(start, labels, blank, fits))
    ensures var t := Next(s, l, blank, fits);
            && DraftTraces(t)
            && (Standing(t) ==>
                  (Follows(Head(t).value, t.draft.value.plan) <==> Keeping(start, labels + [l], blank, fits)))
  {
    hide LabelAvoids, Keeping, Follows, TracesAll, Inv, Taken, NamesAll, HeadMatchesBasis, DraftIsCurrent, Next, Run;
    KeepingStep(start, labels, l, blank, fits);
    if l.Create? && !DraftIsCurrent(s) {
      if s.history != [] {
        CreatedKeeps(s, blank, fits);
      } else {
        CreateKeepsHistory(s, blank, fits);
      }
    } else if Taken(s, l) {
      if s.history != [] {
        TakenKeeps(s, l, blank, fits);
      } else {
        TakenIsSaveOrLoad(s, l);
        TakenChangesDraft(s, l, blank, fits);
      }
    } else {
      OtherStepsKeep(s, l, blank, fits);
    }
  }

  lemma CreateKeepsHistory(s: State, blank: string -> bool, fits: FieldRule)
    ensures Next(s, Create, blank, fits).history == s.history
  {
  }

  lemma TakenIsSaveOrLoad(s: State, l: Label)
    requires Taken(s, l)
    ensures (l.Save? || l.Load?) && s.draft.Some?
  {
  }

  // ----- the confirmed chain -----

  /** The step confirms a draft over a confirmed head. */
  predicate Confirms(s: State, l: Label, blank: string -> bool) {
    l.Confirm? && s.history != [] && DraftIsCurrent(s) && Confirmable(s.draft.value.plan, blank)
  }

  /** Every confirmation of the run finds a draft whose steps keep the head. */
  ghost predicate ConfirmsKept(start: State, labels: seq<Label>, blank: string -> bool, fits: FieldRule) {
    forall k | 0 <= k < |labels| && Confirms(Run(start, labels[..k], blank, fits), labels[k], blank) ::
      Keeping(start, labels[..k], blank, fits)
  }

  predicate PairsFollow(h: seq<Revision>) { forall i | 0 <= i < |h| - 1 :: Follows(h[i].plan, h[i + 1].plan) }

  /** Each confirmed revision follows every earlier one. */
  predicate ChainFollowed(h: seq<Revision>) { forall i, j | 0 <= i <= j < |h| :: Follows(h[i].plan, h[j].plan) }

  lemma {:induction false} PairsMakeChain(h: seq<Revision>, i: nat, j: nat)
    requires PairsFollow(h) && i <= j < |h|
    ensures Follows(h[i].plan, h[j].plan)
    decreases j
  {
    hide Follows;
    if i == j {
      FollowsItself(h[i].plan);
    } else {
      PairsMakeChain(h, i, j - 1);
      FollowsTransitive(h[i].plan, h[j - 1].plan, h[j].plan);
    }
  }

  lemma ChainIsPairs(h: seq<Revision>)
    ensures ChainFollowed(h) <==> PairsFollow(h)
  {
    hide Follows;
    if PairsFollow(h) {
      forall i, j | 0 <= i <= j < |h|
        ensures Follows(h[i].plan, h[j].plan)
      {
        PairsMakeChain(h, i, j);
      }
    }
  }

  lemma PairsAppend(h: seq<Revision>, r: Revision)
    ensures PairsFollow(h + [r]) <==> PairsFollow(h) && (h != [] ==> Follows(h[|h| - 1].plan, r.plan))
  {
    hide Follows;
    var g := h + [r];
    forall i | 0 <= i < |h|
      ensures g[i] == h[i]
    {
    }
    assert g[|h|] == r;
    if PairsFollow(g) {
      forall i | 0 <= i < |h| - 1
        ensures Follows(h[i].plan, h[i + 1].plan)
      {
        assert Follows(g[i].plan, g[i + 1].plan);
      }
      if h != [] {
        assert Follows(g[|h| - 1].plan, g[|h| - 1 + 1].plan);
      }
    }
  }

  /** How one step changes the chain. */
  lemma PairsStep(s: State, l: Label, blank: string -> bool, fits: FieldRule)
    requires Inv(s, blank)
    ensures var t := Next(s, l, blank, fits);
            PairsFollow(t.history) <==>
              PairsFollow(s.history) && (Confirms(s, l, blank) ==> Follows(Head(s).value, s.draft.value.plan))
  {
    hide PairsFollow, Follows, Confirmable, Inv;
    if l.Confirm? {
      if s.draft.Some? && DraftIsCurrent(s) && Confirmable(s.draft.value.plan, blank) {
        PairsAppend(s.history, Revision(s.draft.value.plan, s.basis));
      }
    } else if l.ApplyPatch? {
      PatchPairs(s, l.patches, l.implemented, blank, fits);
    } else {
      OthersKeepHistory(s, l, blank, fits);
    }
  }

  lemma OthersKeepHistory(s: State, l: Label, blank: string -> bool, fits: FieldRule)
    requires !l.Confirm? && !l.ApplyPatch?
    ensures Next(s, l, blank, fits).history == s.history
  {
    hide Normalize;
  }

  lemma PatchPairs(s: State, patches: seq<Patch>, implemented: set<string>, blank: string -> bool, fits: FieldRule)
    requires Inv(s, blank)
    ensures PairsFollow(Next(s, ApplyPatch(patches, implemented), blank, fits).history) <==> PairsFollow(s.history)
  {
    hide PairsFollow, Follows, Confirmable, ApplyPatches, Canonical;
    if s.history != [] && patches != [] && ApplyPatches(Head(s).value, patches, implemented, fits).Success? {
      var last := s.history[|s.history| - 1];
      assert EntryOk(last, blank);
      PatchedFollows(last.plan, patches, implemented, fits);
      PairsAppend(s.history, Revision(ApplyPatches(last.plan, patches, implemented, fits).value, last.basis));
    }
  }

  lemma ConfirmsKeptStep(start: State, labels: seq<Label>, l: Label, blank: string -> bool, fits: FieldRule)
    ensures ConfirmsKept(start, labels + [l], blank, fits) <==>
              && ConfirmsKept(start, labels, blank, fits)
              && (Confirms(Run(start, labels, blank, fits), l, blank) ==> Keeping(start, labels, blank, fits))
  {
    hide Run, Keeping, Confirms;
    var more := labels + [l];
    assert more[..|labels|] == labels && more[|labels|] == l;
    forall k | 0 <= k < |labels|
      ensures more[..k] == labels[..k] && more[k] == labels[k]
    {
    }
    if ConfirmsKept(start, more, blank, fits) {
      forall k | 0 <= k < |labels| && Confirms(Run(start, labels[..k], blank, fits), labels[k], blank)
        ensures Keeping(start, labels[..k], blank, fits)
      {
        assert Confirms(Run(start, more[..k], blank, fits), more[k], blank);
      }
      if Confirms(Run(start, labels, blank, fits), l, blank) {
        assert Confirms(Run(start, more[..|labels|], blank, fits), more[|labels|], blank);
      }
    }
  }

  lemma ConfirmsStanding(s: State, l: Label, blank: string -> bool)
    requires Confirms(s, l, blank)
    ensures Standing(s)
  {
    hide Confirmable;
  }

  lemma {:induction false} PairsSurviveIff(labels: seq<Label>, basis: nat, blank: string -> bool, fits: FieldRule)
    requires forall l | l in labels :: LabelOk(l)
    requires RunAvoids(State([], basis, None), labels, blank, fits)
    ensures PairsFollow(Run(State([], basis, None), labels, blank, fits).history) <==>
              ConfirmsKept(State([], basis, None), labels, blank, fits)
  {
    hide LabelOk, RunAvoids, LabelAvoids, Keeping, Follows, Inv, Next, PairsFollow, ConfirmsKept, Confirms, Standing;
    var start := State([], basis, None);
    if labels == [] {
      NothingConfirmed(start, blank, fits);
    } else {
      var n := |labels| - 1;
      var l := labels[n];
      assert forall x | x in labels[..n] :: x in labels;
      AvoidsPrefix(start, labels, blank, fits);
      PairsSurviveIff(labels[..n], basis, blank, fits);
      KeepingDecides(labels[..n], basis, blank, fits);
      RunKeepsInv(labels[..n], basis, blank, fits);
      var s := Run(start, labels[..n], blank, fits);
      PairsStep(s, l, blank, fits);
      ConfirmsKeptStep(start, labels[..n], l, blank, fits);
      assert labels[..n] + [l] == labels;
      if Confirms(s, l, blank) {
        ConfirmsStanding(s, l, blank);
      }
    }
  }

  lemma NothingConfirmed(start: State, blank: string -> bool, fits: FieldRule)
    requires start.history == []
    ensures PairsFollow(start.history) && ConfirmsKept(start, [], blank, fits)
  {
  }

  /**
    Over any run with any changes of basis, every confirmed revision follows every
    earlier one exactly when each confirmation finds a draft that was created from
    the head on its own basis, or whose last accepted content names every node of
    the head, the retired ones as retired.
  */
  lemma ChainSurvivesIff(labels: seq<Label>, basis: nat, blank: string -> bool, fits: FieldRule)
    requires forall l | l in labels :: LabelOk(l)
    requires RunAvoids(State([], basis, None), labels, blank, fits)
    ensures ChainFollowed(Run(State([], basis, None), labels, blank, fits).history) <==>
              ConfirmsKept(State([], basis, None), labels, blank, fits)
  {
    hide LabelOk, RunAvoids, Run, ChainFollowed, PairsFollow, ConfirmsKept;
    PairsSurviveIff(labels, basis, blank, fits);
    ChainIsPairs(Run(State([], basis, None), labels, blank, fits).history);
  }

  // ----- loads and saves after a change of basis -----

  lemma LoadNamesAll(s: State, l: Label, blank: string -> bool)
    requires Inv(s, blank) && DraftTraces(s) && s.history != [] && l.Load? && Taken(s, l)
    ensures NamesAll(Content(l), Head(s).value)
  {
    hide Inv, Normalize, TracesAll, NamesAll, IdsOk, Nodes;
    HeadIds(s, blank);
    JudgedNamesAll(Content(l), s.draft.value.plan, Ids(l), Head(s).value);
  }

  /** The draft stands, is current and follows the head. */
  predicate FollowsHead(s: State) { DraftIsCurrent(s) && Standing(s) && Follows(Head(s).value, s.draft.value.plan) }

  lemma LoadFollows(s: State, l: Label, blank: string -> bool, fits: FieldRule)
    requires Inv(s, blank) && DraftTraces(s) && s.history != [] && l.Load? && LabelOk(l) && Taken(s, l)
    ensures var t := Next(s, l, blank, fits);
            Inv(t, blank) && DraftTraces(t) && FollowsHead(t) && t.history == s.history
  {
    hide Inv, Normalize, TracesAll, NamesAll, Follows, DraftShaped, Next;
    LoadNamesAll(s, l, blank);
    TakenKeeps(s, l, blank, fits);
    TakenChangesDraft(s, l, blank, fits);
    StepKeepsInv(s, l, blank, fits);
  }

  lemma QuietStep(s: State, l: Label, blank: string -> bool, fits: FieldRule)
    requires Inv(s, blank) && DraftTraces(s) && FollowsHead(s) && LabelOk(l) && (l.Create? || l.Load? || l.Refused?)
    ensures var t := Next(s, l, blank, fits);
            Inv(t, blank) && DraftTraces(t) && FollowsHead(t) && t.history == s.history
  {
    hide Inv, TracesAll, Follows, DraftShaped, Taken, Normalize;
    if l.Load? {
      hide Next;
      if Taken(s, l) {
        LoadFollows(s, l, blank, fits);
      } else {
        RefusedLoad(s, l, blank, fits);
      }
    }
  }

  lemma RefusedLoad(s: State, l: Label, blank: string -> bool, fits: FieldRule)
    requires l.Load? && !Taken(s, l)
    ensures Next(s, l, blank, fits) == s
  {
    hide Normalize;
  }

  /** An accepted load with no save after it leaves a draft that follows the head, whatever the basis. */
  lemma {:induction false} LoadKeepsHead(s: State, l: Label, more: seq<Label>, blank: string -> bool, fits: FieldRule)
    requires Inv(s, blank) && DraftTraces(s) && s.history != [] && l.Load? && LabelOk(l) && Taken(s, l)
    requires forall x | x in more :: LabelOk(x) && (x.Create? || x.Load? || x.Refused?)
    ensures var t := Run(Next(s, l, blank, fits), more, blank, fits);
            Inv(t, blank) && DraftTraces(t) && FollowsHead(t) && t.history == s.history
    decreases more
  {
    hide Inv, DraftTraces, FollowsHead, Taken, Next, LabelOk;
    if more == [] {
      LoadFollows(s, l, blank, fits);
    } else {
      var n := |more| - 1;
      assert forall x | x in more[..n] :: x in more;
      assert more[n] in more;
      LoadKeepsHead(s, l, more[..n], blank, fits);
      QuietStep(Run(Next(s, l, blank, fits), more[..n], blank, fits), more[n], blank, fits);
    }
  }

  /** No id of the head is in the plan. */
  predicate HoldsNothing(head: Plan, p: Plan) { forall n | n in Nodes(head) :: !Names(Nodes(p), n.id) }

  /** On another basis than the head's, a current draft holds nothing of the head. */
  predicate StartedOver(s: State) {
    s.history != [] && !HeadMatchesBasis(s) && (DraftIsCurrent(s) ==> HoldsNothing(Head(s).value, s.draft.value.plan))
  }

  lemma EmptyHoldsNothing(p: Plan)
    ensures HoldsNothing(p, EMPTY)
  {
    assert Nodes(EMPTY) == [];
    hide Nodes;
  }

  lemma SaveHoldsNothing(s: State, l: Label, blank: string -> bool, fits: FieldRule)
    requires StartedOver(s) && l.Save? && Taken(s, l) && Avoids(l.saveIds, Head(s).value)
    ensures StartedOver(Next(s, l, blank, fits)) && Next(s, l, blank, fits).history == s.history
  {
    hide Normalize, Nodes, Names, Avoids, Next;
    TakenChangesDraft(s, l, blank, fits);
    var head := Head(s).value;
    var r := Normalize(Content(l), None, Some(s.draft.value.plan), Ids(l)).value;
    forall n | n in Nodes(head)
      ensures !Names(Nodes(r), n.id)
    {
      if Names(Nodes(r), n.id) {
        SaveAddsNothingOld(Content(l), s.draft.value.plan, Ids(l), head, n);
      }
    }
  }

  lemma StartedOverStep(s: State, l: Label, blank: string -> bool, fits: FieldRule)
    requires StartedOver(s) && (l.Create? || l.Save? || l.Discard? || l.Refused?)
    requires l.Save? ==> Avoids(l.saveIds, Head(s).value)
    ensures StartedOver(Next(s, l, blank, fits)) && Next(s, l, blank, fits).history == s.history
  {
    hide Normalize, HoldsNothing, Avoids, Taken;
    if l.Save? {
      hide Next;
      if Taken(s, l) {
        SaveHoldsNothing(s, l, blank, fits);
      } else {
        TakenChangesDraft(s, l, blank, fits);
      }
    } else if l.Create? {
      EmptyHoldsNothing(Head(s).value);
    }
  }

  /** After a change of basis, saves alone keep no node of the old head. */
  lemma {:induction false} SavesKeepNothing(s: State, labels: seq<Label>, blank: string -> bool, fits: FieldRule)
    requires s.history != [] && !HeadMatchesBasis(s) && !DraftIsCurrent(s)
    requires forall l | l in labels :: l.Create? || l.Save? || l.Discard? || l.Refused?
    requires forall l | l in labels && l.Save? :: Avoids(l.saveIds, Head(s).value)
    ensures var t := Run(s, labels, blank, fits);
            StartedOver(t) && t.history == s.history
    decreases labels
  {
    hide Next, Avoids, HoldsNothing;
    if labels != [] {
      var n := |labels| - 1;
      assert forall x | x in labels[..n] :: x in labels;
      assert labels[n] in labels;
      SavesKeepNothing(s, labels[..n], blank, fits);
      StartedOverStep(Run(s, labels[..n], blank, fits), labels[n], blank, fits);
    }
  }

  /** Such a draft, once confirmed, breaks the chain. */
  lemma StartingOverBreaks(s: State, blank: string -> bool, fits: FieldRule)
    requires Inv(s, blank) && StartedOver(s) && Confirms(s, Confirm, blank)
    ensures var h := Next(s, Confirm, blank, fits).history;
            && |h| == |s.history| + 1 && HoldsNothing(h[|h| - 2].plan, h[|h| - 1].plan)
            && !Follows(h[|h| - 2].plan, h[|h| - 1].plan)
  {
    hide Inv, HoldsNothing, Nodes, Follows, Confirmable;
    HeadIds(s, blank);
    NothingFollows(Head(s).value, s.draft.value.plan);
  }

  lemma NothingFollows(head: Plan, p: Plan)
    requires HoldsNothing(head, p) && head.volumes != []
    ensures !Follows(head, p)
  {
    var n := head.volumes[0];
    assert n in Nodes(head);
    hide Nodes;
    assert !Survives(n, p);
  }
}
