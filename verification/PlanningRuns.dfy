/**
  Runs of one project's planning: a draft is created from the confirmed head,
  saved any number of times, discarded or confirmed, and confirmed patches
  arrive from finalised chapters in between.
*/
module PlanningRuns {
  import opened Wrappers
  import opened Planning
  import opened PlanningClosed
  import opened PlanningFixedPoint
  import opened PlanningPatches

  /** One confirmed revision and the creative basis it was made for. */
  datatype Revision = Revision(plan: Plan, basis: nat)

  datatype Draft = Draft(plan: Plan, basis: nat, headRevision: nat)

  datatype State = State(history: seq<Revision>, basis: nat, draft: Option<Draft>)

  datatype Label =
    | Create
    | Save(content: DraftPlan, saveIds: nat -> string)
    | Load(output: DraftPlan, loadIds: nat -> string)
    | Discard
    | Confirm
    | ApplyPatch(patches: seq<Patch>, implemented: set<string>)
    | ChangeBasis(to: nat)
    | Refused

  const EMPTY: Plan := Hashed(Plan(None, [], [], [], OtherPlanDigest("")))

  // ----- what confirmation asks for -----

  /** Every active plot's character design has nodes, each with some dimension filled in. */
  predicate DesignsReady(p: Plan, blank: string -> bool) {
    forall n | n in p.plots && n.lifecycle.Active? && "characterDesign" in n.body.fields && n.body.fields["characterDesign"].Design? ::
      var nodes := n.body.fields["characterDesign"].design.nodes;
      nodes != [] && forall c | c in nodes :: exists text | text in c.dimensions :: !blank(text)
  }

  predicate HasActive(nodes: seq<Node>, id: string) { exists n | n in nodes :: n.id == id && n.lifecycle.Active? }

  predicate BlockReady(p: Plan, b: StoryBlock) {
    && b.node.lifecycle.Active? && b.node.body.BlockBody?
    && HasActive(p.volumes, b.node.body.volumeId)
    && (forall id | id in b.node.body.plotIds :: HasActive(p.plots, id))
    && (exists s | s in b.stages :: s.node.lifecycle.Active? && exists t | t in s.tasks :: t.lifecycle.Active?)
  }

  predicate Confirmable(p: Plan, blank: string -> bool) {
    && DesignsReady(p, blank)
    && p.activeBlock.Some?
    && (exists b | b in p.blocks :: b.node.id == p.activeBlock.value && BlockReady(p, b))
    && (exists n | n in p.volumes :: n.lifecycle.Active?)
    && (exists n | n in p.plots :: n.lifecycle.Active?)
  }

  // ----- steps -----

  function Head(s: State): Option<Plan> { if s.history == [] then None else Some(s.history[|s.history| - 1].plan) }

  predicate HeadMatchesBasis(s: State) { s.history == [] || s.history[|s.history| - 1].basis == s.basis }

  predicate DraftIsCurrent(s: State) {
    s.draft.Some? && s.draft.value.basis == s.basis && s.draft.value.headRevision == |s.history|
  }

  function Normalized(s: State, confirmed: Option<Plan>, content: DraftPlan, ids: nat -> string): State
    requires s.draft.Some?
  {
    match Normalize(content, confirmed, Some(s.draft.value.plan), ids)
    case Success(p) => s.(draft := Some(s.draft.value.(plan := p)))
    case Failure(_) => s
  }

  function Next(s: State, l: Label, blank: string -> bool, fits: FieldRule): State {
    match l
    case Create =>
      if DraftIsCurrent(s) then s
      else s.(draft := Some(Draft(if Head(s).Some? && HeadMatchesBasis(s) then Head(s).value else EMPTY, s.basis, |s.history|)))
    case Save(content, ids) =>
      if s.draft.None? then s
      else if !DraftIsCurrent(s) then s.(draft := None)
      else Normalized(s, if HeadMatchesBasis(s) then Head(s) else None, content, ids)
    case Load(output, ids) => if DraftIsCurrent(s) then Normalized(s, Head(s), output, ids) else s
    case Discard => s.(draft := None)
    case Confirm =>
      if s.draft.None? then s
      else if !DraftIsCurrent(s) then s.(draft := None)
      else if !Confirmable(s.draft.value.plan, blank) then s
      else s.(history := s.history + [Revision(s.draft.value.plan, s.basis)], draft := None)
    case ApplyPatch(patches, implemented) =>
      if s.history == [] || patches == [] then s
      else
        (match ApplyPatches(Head(s).value, patches, implemented, fits)
         case Success(p) => s.(history := s.history + [Revision(p, s.history[|s.history| - 1].basis)])
         case Failure(_) => s)
    case ChangeBasis(to) => s.(basis := to)
    case Refused => s
  }

  /** What the types of the requests guarantee. */
  predicate LabelOk(l: Label) {
    match l
    case Save(content, _) => DraftShaped(content)
    case Load(output, _) => DraftShaped(output)
    case ApplyPatch(patches, _) => forall q | q in patches :: WellFormed(q)
    case _ => true
  }

  function Run(start: State, labels: seq<Label>, blank: string -> bool, fits: FieldRule): State {
    if labels == [] then start
    else Next(Run(start, labels[..|labels| - 1], blank, fits), labels[|labels| - 1], blank, fits)
  }

  // ----- history of a node -----

  /** The later node is the earlier one, perhaps revised, never unretired. */
  predicate Succeeds(earlier: Node, later: Node) {
    && later.id == earlier.id
    && KindOf(later.body) == KindOf(earlier.body)
    && earlier.revision <= later.revision
    && (earlier.revision == later.revision ==> earlier.hash == later.hash)
    && (earlier.lifecycle.Retired? ==> later.lifecycle.Retired?)
  }

  predicate Survives(n: Node, p: Plan) { exists m | m in Nodes(p) :: Succeeds(n, m) }

  predicate Follows(earlier: Plan, later: Plan) { forall n | n in Nodes(earlier) :: Survives(n, later) }

  lemma FollowsItself(p: Plan)
    ensures Follows(p, p)
  {
    hide Nodes;
    forall n | n in Nodes(p)
      ensures Survives(n, p)
    {
      assert Succeeds(n, n);
    }
  }

  lemma FollowsTransitive(a: Plan, b: Plan, c: Plan)
    requires Follows(a, b) && Follows(b, c)
    ensures Follows(a, c)
  {
    hide Nodes;
    forall n | n in Nodes(a)
      ensures Survives(n, c)
    {
      assert Survives(n, b);
      var m :| m in Nodes(b) && Succeeds(n, m);
      assert Survives(m, c);
      var k :| k in Nodes(c) && Succeeds(m, k);
      assert Succeeds(n, k);
    }
  }

  lemma FollowsEmpty(p: Plan)
    ensures Canonical(EMPTY) && Follows(EMPTY, p)
  {
    assert Nodes(EMPTY) == [];
  }

  /** The new version of a confirmed node in a saved draft. */
  lemma SavedNodeSucceeds(c: Context, d: DraftNode, parent: string, id: string, confirmed: Node, latest: Node)
    requires IdentityOk(c, d, id) && d.identity.Existing? && Resolve(c, Ref(d)) == id
    requires Baseline(c, id) == Some(latest) && Succeeds(confirmed, latest)
    requires id in c.confirmed && c.confirmed[id] == confirmed && confirmed.id == id
    ensures Succeeds(confirmed, FormalNode(c, d, parent))
  {
    hide Resolve, Baseline, ResolveAll;
    assert KindOf(FormalBody(c, d.body, parent)) == DraftKind(d.body);
  }

  /** Among the previous versions the draft's comes first. */
  lemma LatestVersion(c: Context, base: Plan, previous: Plan, n: Node)
    requires c.confirmed == NodeMap(Nodes(base)) && c.previous == NodeMap(Nodes(previous))
    requires IdsOk(Nodes(base)) && IdsOk(Nodes(previous)) && n in Nodes(base) && Survives(n, previous)
    ensures n.id in c.confirmed && c.confirmed[n.id] == n
    ensures Baseline(c, n.id).Some? && Succeeds(n, Baseline(c, n.id).value)
  {
    hide Nodes, NodeMap, IdsOk;
    NodeMapOf(Nodes(base), n);
    var m :| m in Nodes(previous) && Succeeds(n, m);
    NodeMapOf(Nodes(previous), m);
  }

  lemma AcceptedAt(d: DraftPlan, confirmed: Option<Plan>, previous: Option<Plan>, factory: nat -> string, id: string)
    returns (i: nat)
    requires Accepts(d, confirmed, previous, factory) && id in PlanMap(confirmed)
    ensures var ps := PlacedNodes(d);
            var c := ContextOf(d, confirmed, previous, factory);
            && i < |ps| && Assigned(ps, factory)[i] == id
            && ps[i].node.identity.Existing?
            && IdentityOk(c, ps[i].node, id)
  {
    hide PlacedNodes, RefsOk, OrdersOk, BlockRelationsOk, ActiveOk, IdentityOk, Resolved, PlanMap, IsClientKey;
    hide Distinct, Assigned;
    var ps := PlacedNodes(d);
    i :| 0 <= i < |ps| && Assigned(ps, factory)[i] == id;
  }

  lemma SavedNodeSurvives(d: DraftPlan, base: Plan, previous: Plan, factory: nat -> string, n: Node)
    requires Canonical(base) && Canonical(previous) && Follows(base, previous)
    requires Accepts(d, Some(base), Some(previous), factory) && n in Nodes(base)
    ensures Survives(n, FormalPlan(ContextOf(d, Some(base), Some(previous), factory), d))
  {
    hide PlacedNodes, Nodes, Accepts, Canonical, FormalPlan, FormalNode, Resolved, NodeMap, Succeeds, IdentityOk;
    hide IdsOk, Assigned;
    CanonicalIds(base);
    CanonicalIds(previous);
    var c := ContextOf(d, Some(base), Some(previous), factory);
    LatestVersion(c, base, previous, n);
    var i := AcceptedAt(d, Some(base), Some(previous), factory, n.id);
    AcceptsRefs(d, Some(base), Some(previous), factory);
    FormalIds(d, Some(base), Some(previous), factory);
    var ps := PlacedNodes(d);
    SavedNodeSucceeds(c, ps[i].node, ps[i].parent, n.id, n, Baseline(c, n.id).value);
    assert FormalNode(c, ps[i].node, ps[i].parent) in Nodes(FormalPlan(c, d));
  }

  lemma AcceptsRefs(d: DraftPlan, confirmed: Option<Plan>, previous: Option<Plan>, factory: nat -> string)
    requires Accepts(d, confirmed, previous, factory)
    ensures RefsOk(PlacedNodes(d))
  {
    hide PlacedNodes, RefsOk, OrdersOk, AllocationOk, BlockRelationsOk, ActiveOk, IdentityOk, Resolved, PlanMap;
    hide Assigned;
  }

  /** A saved draft keeps following the confirmed aggregate its predecessor followed. */
  lemma SavedDraftFollows(d: DraftPlan, base: Plan, previous: Plan, factory: nat -> string)
    requires Canonical(base) && Canonical(previous) && Follows(base, previous)
    requires Normalize(d, Some(base), Some(previous), factory).Success?
    ensures Follows(base, Normalize(d, Some(base), Some(previous), factory).value)
  {
    hide Nodes, Accepts, Canonical, FormalPlan, ContextOf, Survives;
    forall n | n in Nodes(base)
      ensures Survives(n, FormalPlan(ContextOf(d, Some(base), Some(previous), factory), d))
    {
      SavedNodeSurvives(d, base, previous, factory, n);
    }
  }

  /** A patched aggregate follows the one it patches. */
  lemma PatchedFollows(p: Plan, patches: seq<Patch>, implemented: set<string>, fits: FieldRule)
    requires Canonical(p) && ApplyPatches(p, patches, implemented, fits).Success?
    ensures Follows(p, ApplyPatches(p, patches, implemented, fits).value)
  {
    hide Nodes, Canonical, ApplyPatches, Targets;
    var r := ApplyPatches(p, patches, implemented, fits).value;
    forall n | n in Nodes(p)
      ensures Survives(n, r)
    {
      var i :| 0 <= i < |Nodes(p)| && Nodes(p)[i] == n;
      PatchesAreLocal(p, patches, implemented, fits, i);
      KindKept(Nodes(r)[i], n);
      assert Succeeds(n, Nodes(r)[i]);
    }
  }

  lemma KindKept(a: Node, b: Node)
    requires SameRelations(a, b)
    ensures KindOf(a.body) == KindOf(b.body)
  {
  }

  // ----- patches keep an aggregate confirmable -----

  lemma {:induction false} NeverRedesigned(patches: seq<Patch>, id: string)
    requires forall q | q in patches :: WellFormed(q)
    ensures LastValue(patches, id, "characterDesign").None?
  {
    if patches != [] {
      assert patches[|patches| - 1] in patches;
      NeverRedesigned(patches[..|patches| - 1], id);
    }
  }

  predicate SameDesign(a: Node, b: Node) {
    && SameRelations(a, b)
    && ("characterDesign" in a.body.fields <==> "characterDesign" in b.body.fields)
    && ("characterDesign" in a.body.fields ==> a.body.fields["characterDesign"] == b.body.fields["characterDesign"])
  }

  lemma DesignKept(p: Plan, patches: seq<Patch>, n: Node)
    requires IdsOk(Nodes(p)) && n in Nodes(p)
    requires forall q | q in patches :: WellFormed(q) && q.targetId in Level(p, q.kind)
    ensures SameDesign(Revise(n, Patched(p, patches)), n)
  {
    hide Nodes, IdsOk, Level, Patched, WellFormed;
    NeverRedesigned(patches, n.id);
    PatchedFields(p, patches, n, "characterDesign");
  }

  /** Every node of the revised aggregate differs at most in fields other than a character design. */
  predicate DesignsKept(p: Plan, edits: Edits) { forall n | n in Nodes(p) :: SameDesign(Revise(n, edits), n) }

  lemma RevisedHasActive(ns: seq<Node>, edits: Edits, id: string)
    requires HasActive(ns, id)
    ensures HasActive(ReviseAll(ns, edits), id)
  {
    hide FieldsOf;
    var i :| 0 <= i < |ns| && ns[i].id == id && ns[i].lifecycle.Active?;
    assert ReviseAll(ns, edits)[i] in ReviseAll(ns, edits);
  }

  lemma RevisedSomeActive(ns: seq<Node>, edits: Edits)
    requires exists n | n in ns :: n.lifecycle.Active?
    ensures exists n | n in ReviseAll(ns, edits) :: n.lifecycle.Active?
  {
    hide FieldsOf;
    var i :| 0 <= i < |ns| && ns[i].lifecycle.Active?;
    assert ReviseAll(ns, edits)[i] in ReviseAll(ns, edits);
  }

  lemma RevisedDesignsReady(p: Plan, edits: Edits, blank: string -> bool)
    requires DesignsReady(p, blank) && DesignsKept(p, edits)
    ensures DesignsReady(Revised(p, edits), blank)
  {
    hide Nodes, Revise, SameRelations;
    NodesHas(p);
    forall n | n in Revised(p, edits).plots
      ensures exists m :: m in p.plots && SameDesign(n, m)
    {
      var i :| 0 <= i < |p.plots| && ReviseAll(p.plots, edits)[i] == n;
      assert p.plots[i] in p.plots && p.plots[i] in Nodes(p);
    }
    forall n | n in Revised(p, edits).plots && n.lifecycle.Active? && "characterDesign" in n.body.fields
               && n.body.fields["characterDesign"].Design?
      ensures var nodes := n.body.fields["characterDesign"].design.nodes;
              nodes != [] && forall c | c in nodes :: exists text | text in c.dimensions :: !blank(text)
    {
      var m :| m in p.plots && SameDesign(n, m);
      DesignParts(n, m);
    }
  }

  lemma DesignParts(a: Node, b: Node)
    requires SameDesign(a, b)
    ensures a.lifecycle == b.lifecycle
  {
  }

  lemma RevisedBlockReady(p: Plan, b: StoryBlock, edits: Edits)
    requires BlockReady(p, b)
    ensures BlockReady(Revised(p, edits), ReviseBlock(b, edits))
  {
    hide FieldsOf, ReviseAll, HasActive;
    RevisedHasActive(p.volumes, edits, b.node.body.volumeId);
    forall id | id in b.node.body.plotIds
      ensures HasActive(Revised(p, edits).plots, id)
    {
      RevisedHasActive(p.plots, edits, id);
    }
    var j :| 0 <= j < |b.stages| && b.stages[j].node.lifecycle.Active? && exists t | t in b.stages[j].tasks :: t.lifecycle.Active?;
    RevisedSomeActive(b.stages[j].tasks, edits);
    var s := ReviseStages(b.stages, edits)[j];
    assert s in ReviseBlock(b, edits).stages && s.node.lifecycle.Active?;
  }

  lemma RevisedConfirmable(p: Plan, edits: Edits, blank: string -> bool)
    requires Confirmable(p, blank) && DesignsKept(p, edits)
    ensures Confirmable(Revised(p, edits), blank)
  {
    hide Nodes, ReviseAll, BlockReady, DesignsReady, DesignsKept, FieldsOf, ReviseStages;
    RevisedDesignsReady(p, edits, blank);
    RevisedSomeActive(p.volumes, edits);
    RevisedSomeActive(p.plots, edits);
    var i :| 0 <= i < |p.blocks| && p.blocks[i].node.id == p.activeBlock.value && BlockReady(p, p.blocks[i]);
    RevisedBlockReady(p, p.blocks[i], edits);
    assert ReviseBlocks(p.blocks, edits)[i] in Revised(p, edits).blocks;
  }

  /** Patches of the allowed fields keep an aggregate fit for confirmation. */
  lemma PatchedIsConfirmable(p: Plan, patches: seq<Patch>, implemented: set<string>, fits: FieldRule,
                             blank: string -> bool)
    requires Canonical(p) && ApplyPatches(p, patches, implemented, fits).Success?
    requires Confirmable(p, blank) && forall q | q in patches :: WellFormed(q)
    ensures Confirmable(ApplyPatches(p, patches, implemented, fits).value, blank)
  {
    hide Nodes, Canonical, ApplyPatches, Confirmable, Revised, EditsFit, SameDesign, WellFormed, Level, Patched;
    PatchesAccepted(p, patches, implemented, fits);
    if patches != [] {
      CanonicalIds(p);
      forall n | n in Nodes(p)
        ensures SameDesign(Revise(n, Patched(p, patches)), n)
      {
        DesignKept(p, patches, n);
      }
      RevisedConfirmable(p, Patched(p, patches), blank);
    } else {
      AppliesNothing(p, implemented, fits);
    }
  }

  lemma AppliesNothing(p: Plan, implemented: set<string>, fits: FieldRule)
    ensures ApplyPatches(p, [], implemented, fits) == Success(p)
  {
  }

  // ----- the invariant of every run -----

  predicate EntryOk(r: Revision, blank: string -> bool) { Canonical(r.plan) && Confirmable(r.plan, blank) }

  predicate HistoryOk(history: seq<Revision>, blank: string -> bool) {
    && (forall r | r in history :: EntryOk(r, blank))
    && (forall i | 0 <= i < |history| - 1 && history[i].basis == history[i + 1].basis ::
          Follows(history[i].plan, history[i + 1].plan))
  }

  predicate DraftOk(s: State) {
    s.draft.Some? ==>
      var d := s.draft.value;
      && Canonical(d.plan)
      && (d.headRevision == |s.history| && s.history != [] && s.history[|s.history| - 1].basis == d.basis ==>
            Follows(s.history[|s.history| - 1].plan, d.plan))
      && d.headRevision <= |s.history|
  }

  predicate Inv(s: State, blank: string -> bool) { HistoryOk(s.history, blank) && DraftOk(s) }

  lemma HistoryGrows(history: seq<Revision>, r: Revision, blank: string -> bool)
    requires HistoryOk(history, blank) && EntryOk(r, blank)
    requires history != [] && history[|history| - 1].basis == r.basis ==> Follows(history[|history| - 1].plan, r.plan)
    ensures HistoryOk(history + [r], blank)
  {
    hide EntryOk, Follows;
  }

  lemma NormalizedKeepsDraft(s: State, confirmed: Option<Plan>, content: DraftPlan, ids: nat -> string, blank: string -> bool)
    requires Inv(s, blank) && DraftIsCurrent(s) && DraftShaped(content)
    requires confirmed == Head(s) || (confirmed.None? && !HeadMatchesBasis(s))
    ensures DraftOk(Normalized(s, confirmed, content, ids))
    ensures Normalized(s, confirmed, content, ids).history == s.history
  {
    hide Canonical, Follows, Normalize, DraftShaped, Confirmable;
    var d := s.draft.value;
    var r := Normalize(content, confirmed, Some(d.plan), ids);
    if r.Success? {
      NormalizedIsCanonical(content, confirmed, Some(d.plan), ids);
      if s.history != [] && HeadMatchesBasis(s) {
        assert EntryOk(s.history[|s.history| - 1], blank);
        SavedDraftFollows(content, Head(s).value, d.plan, ids);
      }
    }
  }

  lemma CreateKeepsInv(s: State, blank: string -> bool, fits: FieldRule)
    requires Inv(s, blank)
    ensures Inv(Next(s, Create, blank, fits), blank)
  {
    hide Canonical, Follows, Confirmable;
    if Head(s).Some? && HeadMatchesBasis(s) {
      assert EntryOk(s.history[|s.history| - 1], blank);
      FollowsItself(Head(s).value);
    } else {
      FollowsEmpty(EMPTY);
    }
  }

  lemma ConfirmKeepsInv(s: State, blank: string -> bool, fits: FieldRule)
    requires Inv(s, blank)
    ensures Inv(Next(s, Confirm, blank, fits), blank)
  {
    hide Canonical, Follows, Confirmable, HistoryOk;
    if DraftIsCurrent(s) && Confirmable(s.draft.value.plan, blank) {
      HistoryGrows(s.history, Revision(s.draft.value.plan, s.basis), blank);
    }
  }

  lemma PatchKeepsInv(s: State, patches: seq<Patch>, implemented: set<string>, blank: string -> bool, fits: FieldRule)
    requires Inv(s, blank) && LabelOk(ApplyPatch(patches, implemented))
    ensures Inv(Next(s, ApplyPatch(patches, implemented), blank, fits), blank)
  {
    hide Canonical, Follows, Confirmable, ApplyPatches, WellFormed;
    if s.history != [] && patches != [] && ApplyPatches(Head(s).value, patches, implemented, fits).Success? {
      var last := s.history[|s.history| - 1];
      assert EntryOk(last, blank);
      var p := ApplyPatches(last.plan, patches, implemented, fits).value;
      PatchedIsCanonical(last.plan, patches, implemented, fits);
      PatchedFollows(last.plan, patches, implemented, fits);
      PatchedIsConfirmable(last.plan, patches, implemented, fits, blank);
      HistoryGrows(s.history, Revision(p, last.basis), blank);
    }
  }

  lemma SaveKeepsInv(s: State, content: DraftPlan, ids: nat -> string, blank: string -> bool, fits: FieldRule)
    requires Inv(s, blank) && DraftShaped(content)
    ensures Inv(Next(s, Save(content, ids), blank, fits), blank)
    ensures Inv(Next(s, Load(content, ids), blank, fits), blank)
  {
    hide HistoryOk, DraftOk, Normalized, DraftShaped;
    if DraftIsCurrent(s) {
      NormalizedKeepsDraft(s, Head(s), content, ids, blank);
      if !HeadMatchesBasis(s) {
        NormalizedKeepsDraft(s, None, content, ids, blank);
      }
    }
    DroppedDraft(s);
  }

  lemma DroppedDraft(s: State)
    ensures DraftOk(s.(draft := None))
  {
  }

  lemma StepKeepsInv(s: State, l: Label, blank: string -> bool, fits: FieldRule)
    requires Inv(s, blank) && LabelOk(l)
    ensures Inv(Next(s, l, blank, fits), blank)
  {
    hide Canonical, Follows, Confirmable, ApplyPatches, WellFormed, Normalized, DraftShaped, HistoryOk, Head;
    match l
    case Create => CreateKeepsInv(s, blank, fits);
    case Save(content, ids) => SaveKeepsInv(s, content, ids, blank, fits);
    case Load(output, ids) => SaveKeepsInv(s, output, ids, blank, fits);
    case Discard =>
    case Confirm => ConfirmKeepsInv(s, blank, fits);
    case ApplyPatch(patches, implemented) => PatchKeepsInv(s, patches, implemented, blank, fits);
    case ChangeBasis(to) =>
    case Refused =>
  }

  lemma {:induction false} RunKeepsInv(labels: seq<Label>, basis: nat, blank: string -> bool, fits: FieldRule)
    requires forall l | l in labels :: LabelOk(l)
    ensures Inv(Run(State([], basis, None), labels, blank, fits), blank)
  {
    hide Inv, Next, LabelOk;
    if labels == [] {
      EmptyInv(basis, blank);
    } else {
      var n := |labels| - 1;
      assert forall l | l in labels[..n] :: l in labels;
      assert labels[n] in labels;
      RunKeepsInv(labels[..n], basis, blank, fits);
      StepKeepsInv(Run(State([], basis, None), labels[..n], blank, fits), labels[n], blank, fits);
    }
  }

  lemma EmptyInv(basis: nat, blank: string -> bool)
    ensures Inv(State([], basis, None), blank)
  {
  }

  // ----- the confirmed chain -----

  lemma {:induction false} ChainFollows(history: seq<Revision>, blank: string -> bool, i: nat, j: nat)
    requires HistoryOk(history, blank) && i <= j < |history|
    requires forall k | i <= k <= j :: history[k].basis == history[i].basis
    ensures Follows(history[i].plan, history[j].plan)
    decreases j
  {
    hide EntryOk, Follows;
    if i == j {
      FollowsItself(history[i].plan);
    } else {
      ChainFollows(history, blank, i, j - 1);
      FollowsTransitive(history[i].plan, history[j - 1].plan, history[j].plan);
    }
  }

  /** Every confirmed revision is closed and fit for confirmation; while the basis stays, each follows every earlier one. */
  lemma ConfirmedChain(labels: seq<Label>, basis: nat, blank: string -> bool, fits: FieldRule, i: nat, j: nat)
    requires forall l | l in labels :: LabelOk(l)
    requires i <= j < |Run(State([], basis, None), labels, blank, fits).history|
    ensures var h := Run(State([], basis, None), labels, blank, fits).history;
            && Canonical(h[j].plan) && Confirmable(h[j].plan, blank)
            && ((forall k | i <= k <= j :: h[k].basis == h[i].basis) ==> Follows(h[i].plan, h[j].plan))
  {
    hide Run, LabelOk, Canonical, Confirmable, Follows;
    RunKeepsInv(labels, basis, blank, fits);
    var h := Run(State([], basis, None), labels, blank, fits).history;
    assert EntryOk(h[j], blank);
    if forall k | i <= k <= j :: h[k].basis == h[i].basis {
      ChainFollows(h, blank, i, j);
    }
  }

  lemma StepKeepsBasis(s: State, l: Label, blank: string -> bool, fits: FieldRule)
    requires !l.ChangeBasis? && forall r | r in s.history :: r.basis == s.basis
    ensures var t := Next(s, l, blank, fits);
            t.basis == s.basis && forall r | r in t.history :: r.basis == s.basis
  {
    hide ApplyPatches, Normalize, Confirmable;
  }

  lemma {:induction false} OneBasis(labels: seq<Label>, basis: nat, blank: string -> bool, fits: FieldRule)
    requires forall l | l in labels :: !l.ChangeBasis?
    ensures var s := Run(State([], basis, None), labels, blank, fits);
            s.basis == basis && forall r | r in s.history :: r.basis == basis
  {
    hide Next;
    if labels != [] {
      var n := |labels| - 1;
      assert forall l | l in labels[..n] :: l in labels;
      assert !labels[n].ChangeBasis?;
      OneBasis(labels[..n], basis, blank, fits);
      StepKeepsBasis(Run(State([], basis, None), labels[..n], blank, fits), labels[n], blank, fits);
    }
  }

  /** While the basis stays, no confirmed node is lost, unretired, retyped, lowered or given a second content, over any run. */
  lemma ConfirmedNodesEndure(labels: seq<Label>, basis: nat, blank: string -> bool, fits: FieldRule, i: nat, j: nat, n: Node)
    requires forall l | l in labels :: LabelOk(l) && !l.ChangeBasis?
    requires i <= j < |Run(State([], basis, None), labels, blank, fits).history|
    requires n in Nodes(Run(State([], basis, None), labels, blank, fits).history[i].plan)
    ensures var later := Nodes(Run(State([], basis, None), labels, blank, fits).history[j].plan);
            && (exists m | m in later :: Succeeds(n, m))
            && (forall m | m in later && m.id == n.id :: Succeeds(n, m) && (m.revision == n.revision ==> m == n))
  {
    hide Run, LabelOk, Confirmable, Nodes, Succeeds, Shaped, LevelsOk, BlockClosed, ActiveClosed, HashesOk;
    OneBasis(labels, basis, blank, fits);
    var h := Run(State([], basis, None), labels, blank, fits).history;
    ConfirmedChain(labels, basis, blank, fits, i, i);
    ConfirmedChain(labels, basis, blank, fits, i, j);
    assert Survives(n, h[j].plan);
    var k :| k in Nodes(h[j].plan) && Succeeds(n, k);
    SucceedsId(n, k);
    forall m | m in Nodes(h[j].plan) && m.id == n.id
      ensures Succeeds(n, m) && (m.revision == n.revision ==> m == n)
    {
      assert m == k;
      if m.revision == n.revision {
        RevisionsNameOneContent(h[i].plan, h[j].plan, n, m);
      }
    }
  }

  lemma SucceedsId(n: Node, m: Node)
    requires Succeeds(n, m)
    ensures n.id == m.id
  {
  }

  /** A node id and revision of the chain name one content for ever. */
  lemma RevisionsNameOneContent(a: Plan, b: Plan, n: Node, m: Node)
    requires Canonical(a) && Canonical(b) && Follows(a, b)
    requires n in Nodes(a) && m in Nodes(b) && n.id == m.id && n.revision == m.revision
    ensures n == m
  {
    hide Nodes, Shaped, LevelsOk, BlockClosed, ActiveClosed;
    assert Survives(n, b);
    var k :| k in Nodes(b) && Succeeds(n, k);
    assert k == m;
    assert n.hash == NodeDigest(PayloadOf(n)) && m.hash == NodeDigest(PayloadOf(m));
  }

  /** A changed basis starts over: the next draft is empty and owes the old revisions nothing. */
  lemma ChangedBasisStartsOver(s: State, to: nat, blank: string -> bool, fits: FieldRule)
    requires Inv(s, blank) && s.history != [] && s.history[|s.history| - 1].basis != to
    requires s.draft.None? || s.draft.value.basis != to
    requires Nodes(s.history[|s.history| - 1].plan) != []
    ensures var t := Next(Next(s, ChangeBasis(to), blank, fits), Create, blank, fits);
            && t.history == s.history && t.draft == Some(Draft(EMPTY, to, |s.history|))
            && !Follows(s.history[|s.history| - 1].plan, t.draft.value.plan)
  {
    var p := s.history[|s.history| - 1].plan;
    assert Nodes(EMPTY) == [];
    hide Nodes, Inv, ApplyPatches, Normalized;
    var n := Nodes(p)[0];
    assert n in Nodes(p) && !Survives(n, EMPTY);
  }
}
