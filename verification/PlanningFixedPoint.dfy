/**
  Normalising the editable form of an aggregate: with no edit it is a fixed
  point, with edits of fields exactly the edited nodes are revised.
*/
module PlanningFixedPoint {
  import opened Wrappers
  import opened Planning
  import opened PlanningClosed

  /** New fields for some nodes, by node id. */
  type Edits = map<string, Fields>

  function FieldsOf(n: Node, edits: Edits): Fields {
    if n.id in edits then edits[n.id] else n.body.fields
  }

  // ----- the editable form -----

  function EditableBody(b: Body, f: Fields): DraftBody {
    match b
    case VolumeBody(_) => DraftVolume(f)
    case PlotBody(_) => DraftPlot(f)
    case BlockBody(volume, plots, _) => DraftBlock(volume, plots, f)
    case StageBody(_, _) => DraftStage(f)
    case TaskBody(_, _) => DraftTask(f)
  }

  function EditableNode(n: Node, edits: Edits): DraftNode {
    DraftNode(Existing(n.id, n.revision, n.hash), n.lifecycle, n.order, EditableBody(n.body, FieldsOf(n, edits)))
  }

  function EditableNodes(ns: seq<Node>, edits: Edits): (r: seq<DraftNode>)
    ensures |r| == |ns|
  {
    seq(|ns|, i requires 0 <= i < |ns| => EditableNode(ns[i], edits))
  }

  function EditableStage(s: Stage, edits: Edits): StageDraft {
    StageDraft(EditableNode(s.node, edits), EditableNodes(s.tasks, edits))
  }

  function EditableStages(stages: seq<Stage>, edits: Edits): (r: seq<StageDraft>)
    ensures |r| == |stages|
  {
    seq(|stages|, i requires 0 <= i < |stages| => EditableStage(stages[i], edits))
  }

  function EditableBlock(b: StoryBlock, edits: Edits): BlockDraft {
    BlockDraft(EditableNode(b.node, edits), EditableStages(b.stages, edits))
  }

  function EditableBlocks(blocks: seq<StoryBlock>, edits: Edits): (r: seq<BlockDraft>)
    ensures |r| == |blocks|
  {
    seq(|blocks|, i requires 0 <= i < |blocks| => EditableBlock(blocks[i], edits))
  }

  function Editable(p: Plan, edits: Edits): DraftPlan {
    DraftPlan(p.activeBlock, EditableNodes(p.volumes, edits), EditableNodes(p.plots, edits), EditableBlocks(p.blocks, edits))
  }

  // ----- what normalising it should give -----

  /** A node keeps its revision while its payload stays, and gains exactly one when it does not. */
  function Revise(n: Node, edits: Edits): Node {
    var body := n.body.(fields := FieldsOf(n, edits));
    var hash := NodeDigest(Payload(n.id, n.lifecycle, n.order, body));
    n.(revision := if hash == n.hash then n.revision else n.revision + 1, hash := hash, body := body)
  }

  function ReviseAll(ns: seq<Node>, edits: Edits): (r: seq<Node>)
    ensures |r| == |ns|
  {
    seq(|ns|, i requires 0 <= i < |ns| => Revise(ns[i], edits))
  }

  function ReviseStage(s: Stage, edits: Edits): Stage { Stage(Revise(s.node, edits), ReviseAll(s.tasks, edits)) }

  function ReviseStages(stages: seq<Stage>, edits: Edits): (r: seq<Stage>)
    ensures |r| == |stages|
  {
    seq(|stages|, i requires 0 <= i < |stages| => ReviseStage(stages[i], edits))
  }

  function ReviseBlock(b: StoryBlock, edits: Edits): StoryBlock {
    StoryBlock(Revise(b.node, edits), ReviseStages(b.stages, edits))
  }

  function ReviseBlocks(blocks: seq<StoryBlock>, edits: Edits): (r: seq<StoryBlock>)
    ensures |r| == |blocks|
  {
    seq(|blocks|, i requires 0 <= i < |blocks| => ReviseBlock(blocks[i], edits))
  }

  function Revised(p: Plan, edits: Edits): Plan {
    Hashed(Plan(p.activeBlock, ReviseAll(p.volumes, edits), ReviseAll(p.plots, edits), ReviseBlocks(p.blocks, edits),
                OtherPlanDigest("")))
  }

  // ----- the nodes of the editable form -----

  function Bare(ps: seq<Placed>): (r: seq<DraftNode>)
    ensures |r| == |ps|
  {
    seq(|ps|, i requires 0 <= i < |ps| => ps[i].node)
  }

  lemma BareConcat(a: seq<Placed>, b: seq<Placed>)
    ensures Bare(a + b) == Bare(a) + Bare(b)
  {
  }

  lemma EditableConcat(a: seq<Node>, b: seq<Node>, edits: Edits)
    ensures EditableNodes(a + b, edits) == EditableNodes(a, edits) + EditableNodes(b, edits)
  {
    hide EditableNode;
  }

  lemma BareAll(ds: seq<DraftNode>, parent: string)
    ensures Bare(PlaceAll(ds, parent)) == ds
  {
  }

  lemma {:induction false} StagesEditable(stages: seq<Stage>, block: string, edits: Edits)
    ensures Bare(PlacedStages(EditableStages(stages, edits), block)) == EditableNodes(StageNodes(stages), edits)
  {
    if stages != [] {
      hide EditableNode;
      var s := stages[0];
      var e := EditableStage(s, edits);
      StagesEditable(stages[1..], block, edits);
      assert EditableStages(stages, edits)[1..] == EditableStages(stages[1..], edits);
      var head := [Placed(e.node, block)];
      var tasks := PlaceAll(e.tasks, Ref(e.node));
      BareAll(e.tasks, Ref(e.node));
      BareConcat(head, tasks);
      BareConcat(head + tasks, PlacedStages(EditableStages(stages[1..], edits), block));
      assert Bare(head) == EditableNodes([s.node], edits);
      EditableConcat([s.node], s.tasks, edits);
      EditableConcat([s.node] + s.tasks, StageNodes(stages[1..]), edits);
    }
  }

  lemma {:induction false} BlocksEditable(blocks: seq<StoryBlock>, edits: Edits)
    ensures Bare(PlacedBlocks(EditableBlocks(blocks, edits))) == EditableNodes(BlockNodes(blocks), edits)
  {
    if blocks != [] {
      hide EditableNode;
      var b := blocks[0];
      var e := EditableBlock(b, edits);
      BlocksEditable(blocks[1..], edits);
      assert EditableBlocks(blocks, edits)[1..] == EditableBlocks(blocks[1..], edits);
      var head := [Placed(e.node, "")];
      var stages := PlacedStages(e.stages, Ref(e.node));
      StagesEditable(b.stages, Ref(e.node), edits);
      BareConcat(head, stages);
      BareConcat(head + stages, PlacedBlocks(EditableBlocks(blocks[1..], edits)));
      assert Bare(head) == EditableNodes([b.node], edits);
      EditableConcat([b.node], StageNodes(b.stages), edits);
      EditableConcat([b.node] + StageNodes(b.stages), BlockNodes(blocks[1..]), edits);
    }
  }

  /** The editable form walks through the same nodes in the same order. */
  lemma NodesEditable(p: Plan, edits: Edits)
    ensures Bare(PlacedNodes(Editable(p, edits))) == EditableNodes(Nodes(p), edits)
  {
    hide EditableNode;
    var d := Editable(p, edits);
    BareAll(d.volumes, "");
    BareAll(d.plots, "");
    BlocksEditable(p.blocks, edits);
    BareConcat(PlaceAll(d.volumes, ""), PlaceAll(d.plots, ""));
    BareConcat(PlaceAll(d.volumes, "") + PlaceAll(d.plots, ""), PlacedBlocks(d.blocks));
    EditableConcat(p.volumes, p.plots, edits);
    EditableConcat(p.volumes + p.plots, BlockNodes(p.blocks), edits);
  }

  // ----- looking nodes up -----

  lemma {:induction false} NodeMapHas(nodes: seq<Node>, i: nat)
    requires i < |nodes|
    requires forall i, j | 0 <= i < j < |nodes| :: nodes[i].id != nodes[j].id
    ensures nodes[i].id in NodeMap(nodes) && NodeMap(nodes)[nodes[i].id] == nodes[i]
  {
    if i < |nodes| - 1 {
      NodeMapHas(nodes[..|nodes| - 1], i);
    }
  }

  lemma {:induction false} NodeMapKeys(nodes: seq<Node>, id: string)
    ensures id in NodeMap(nodes) <==> exists n | n in nodes :: n.id == id
    ensures id in NodeMap(nodes) ==> NodeMap(nodes)[id] in nodes && NodeMap(nodes)[id].id == id
  {
    if nodes != [] {
      var last := nodes[|nodes| - 1];
      NodeMapKeys(nodes[..|nodes| - 1], id);
      assert nodes == nodes[..|nodes| - 1] + [last];
    }
  }

  lemma NodeMapOf(nodes: seq<Node>, n: Node)
    requires IdsOk(nodes) && n in nodes
    ensures n.id in NodeMap(nodes) && NodeMap(nodes)[n.id] == n
  {
    var i :| 0 <= i < |nodes| && nodes[i] == n;
    NodeMapHas(nodes, i);
  }

  // ----- ids -----

  lemma {:induction false} ExistingKeepIds(ps: seq<Placed>, factory: nat -> string, i: nat)
    requires i < |ps| && ps[i].node.identity.Existing?
    ensures Assigned(ps, factory)[i] == ps[i].node.identity.id
  {
    AssignedIs(ps, factory, i);
  }

  /** Node by node: the placed draft node is the edited node and keeps its id. */
  lemma EditableAt(p: Plan, edits: Edits, factory: nat -> string, i: nat)
    requires i < |Nodes(p)|
    ensures var ps := PlacedNodes(Editable(p, edits));
            && |ps| == |Nodes(p)|
            && ps[i].node == EditableNode(Nodes(p)[i], edits)
            && Assigned(ps, factory)[i] == Nodes(p)[i].id
            && Ref(ps[i].node) == Nodes(p)[i].id
  {
    hide PlacedNodes, Nodes, Editable, Assigned;
    NodesEditable(p, edits);
    var ps := PlacedNodes(Editable(p, edits));
    assert Bare(ps)[i] == ps[i].node;
    ExistingKeepIds(ps, factory, i);
  }

  lemma EditableRefs(p: Plan, edits: Edits, factory: nat -> string)
    requires IdsOk(Nodes(p))
    ensures RefsOk(PlacedNodes(Editable(p, edits)))
    ensures Distinct(Assigned(PlacedNodes(Editable(p, edits)), factory))
  {
    hide PlacedNodes, Nodes, Editable, Assigned, EditableNode;
    var ps := PlacedNodes(Editable(p, edits));
    NodesEditable(p, edits);
    forall i | 0 <= i < |ps|
      ensures Ref(ps[i].node) == Nodes(p)[i].id == Assigned(ps, factory)[i]
      ensures Ref(ps[i].node) != "" && ps[i].node.identity.Existing?
    {
      EditableAt(p, edits, factory, i);
      EditableExists(Nodes(p)[i], edits);
    }
    forall i | 0 <= i < |ps|
      ensures ps[i].node.identity.id != ""
    {
      assert Ref(ps[i].node) == ps[i].node.identity.id;
    }
  }

  lemma EditableExists(n: Node, edits: Edits)
    ensures EditableNode(n, edits).identity == Existing(n.id, n.revision, n.hash)
  {
  }

  lemma NoneAllocated(p: Plan, edits: Edits, factory: nat -> string, confirmed: map<string, Node>, previous: map<string, Node>)
    requires IdsOk(Nodes(p))
    ensures AllocationOk(PlacedNodes(Editable(p, edits)), factory, confirmed, previous)
    ensures forall i | 0 <= i < |PlacedNodes(Editable(p, edits))| :: PlacedNodes(Editable(p, edits))[i].node.identity.Existing?
  {
    hide PlacedNodes, Nodes, Editable, Assigned, EditableNode, Distinct, IdsOk, IsClientKey;
    EditableRefs(p, edits, factory);
    NodesEditable(p, edits);
    var ps := PlacedNodes(Editable(p, edits));
    forall i | 0 <= i < |ps|
      ensures ps[i].node.identity.Existing?
    {
      EditableAt(p, edits, factory, i);
      EditableExists(Nodes(p)[i], edits);
    }
  }

  /** The context an aggregate's own editable form is judged in. */
  predicate SelfContext(c: Context, p: Plan) {
    forall n | n in Nodes(p) :: n.id in c.ids && c.ids[n.id] == n.id && Baseline(c, n.id) == Some(n)
  }

  /** Nothing known before is lost and nothing retired before is active. */
  predicate Retains(before: map<string, Node>, nodes: seq<Node>) {
    forall id | id in before ::
      exists n | n in nodes :: n.id == id && (before[id].lifecycle.Retired? ==> n.lifecycle.Retired?)
  }

  /** The aggregate is the last draft, or the last confirmed one and there is no draft. */
  predicate Latest(p: Plan, confirmed: Option<Plan>, previous: Option<Plan>) {
    && (previous == Some(p) || (previous.None? && confirmed == Some(p)))
    && Retains(PlanMap(confirmed), Nodes(p))
  }

  lemma OwnContext(p: Plan, edits: Edits, confirmed: Option<Plan>, previous: Option<Plan>, factory: nat -> string)
    requires IdsOk(Nodes(p)) && Latest(p, confirmed, previous)
    ensures SelfContext(ContextOf(Editable(p, edits), confirmed, previous, factory), p)
  {
    hide PlacedNodes, Nodes, Editable, Assigned, EditableNode, Resolved, RefsOk, NodeMap, Retains;
    var d := Editable(p, edits);
    var c := ContextOf(d, confirmed, previous, factory);
    EditableRefs(p, edits, factory);
    forall n | n in Nodes(p)
      ensures n.id in c.ids && c.ids[n.id] == n.id && Baseline(c, n.id) == Some(n)
    {
      var i :| 0 <= i < |Nodes(p)| && Nodes(p)[i] == n;
      EditableAt(p, edits, factory, i);
      RefResolves(PlacedNodes(d), factory, i);
      NodeMapOf(Nodes(p), n);
    }
  }

  // ----- node by node -----

  /** The parent an edited node is placed under is the one its body names. */
  predicate Parented(n: Node, parent: string) {
    && (n.body.StageBody? ==> n.body.blockId == parent)
    && (n.body.TaskBody? ==> n.body.stageId == parent)
  }

  predicate Known(c: Context, ref: string) { ref in c.ids && c.ids[ref] == ref }

  predicate RefsKnown(c: Context, n: Node, parent: string) {
    && Parented(n, parent)
    && (n.body.StageBody? || n.body.TaskBody? ==> Known(c, parent))
    && (n.body.BlockBody? ==> Known(c, n.body.volumeId) && forall id | id in n.body.plotIds :: Known(c, id))
  }

  lemma FormalIsRevised(c: Context, n: Node, parent: string, edits: Edits)
    requires Known(c, n.id) && Baseline(c, n.id) == Some(n) && RefsKnown(c, n, parent)
    ensures FormalNode(c, EditableNode(n, edits), parent) == Revise(n, edits)
  {
    hide Baseline;
    if n.body.BlockBody? {
      forall i | 0 <= i < |n.body.plotIds|
        ensures Resolve(c, n.body.plotIds[i]) == n.body.plotIds[i]
      {
        assert Known(c, n.body.plotIds[i]);
      }
      assert ResolveAll(c, n.body.plotIds) == n.body.plotIds;
    }
  }

  lemma FormalAllRevised(c: Context, ns: seq<Node>, parent: string, edits: Edits)
    requires forall n | n in ns :: Known(c, n.id) && Baseline(c, n.id) == Some(n) && RefsKnown(c, n, parent)
    ensures FormalNodes(c, EditableNodes(ns, edits), parent) == ReviseAll(ns, edits)
  {
    hide FormalNode, EditableNode, Revise, RefsKnown, Known, Baseline;
    forall i | 0 <= i < |ns|
      ensures FormalNode(c, EditableNode(ns[i], edits), parent) == Revise(ns[i], edits)
    {
      FormalIsRevised(c, ns[i], parent, edits);
    }
  }

  lemma NamesKnown(c: Context, p: Plan, nodes: seq<Node>, id: string)
    requires SelfContext(c, p) && Names(nodes, id)
    requires forall n | n in nodes :: n in Nodes(p)
    ensures Known(c, id)
  {
    hide Nodes, Baseline;
  }

  lemma FormalStageRevised(c: Context, p: Plan, b: StoryBlock, s: Stage, edits: Edits)
    requires SelfContext(c, p) && ClosedPlan(p) && b in p.blocks && s in b.stages
    ensures FormalStage(c, EditableStage(s, edits), b.node.id) == ReviseStage(s, edits)
  {
    hide FormalNode, FormalNodes, EditableNodes, Revise, ReviseAll, Nodes, Baseline, IdsOk, LevelsOk, HashesOk;
    hide ActiveClosed, Names, Distinct;
    NodesHas(p);
    assert BlockClosed(p, b);
    FormalIsRevised(c, s.node, b.node.id, edits);
    FormalAllRevised(c, s.tasks, s.node.id, edits);
  }

  lemma FormalBlockRevised(c: Context, p: Plan, b: StoryBlock, edits: Edits)
    requires SelfContext(c, p) && ClosedPlan(p) && b in p.blocks
    ensures FormalBlock(c, EditableBlock(b, edits)) == ReviseBlock(b, edits)
  {
    hide FormalNode, FormalStage, EditableStage, Revise, ReviseStage, Nodes, Baseline, IdsOk, LevelsOk, HashesOk;
    hide ActiveClosed, Distinct;
    hide Names, Known;
    NodesHas(p);
    assert BlockClosed(p, b);
    NamesKnown(c, p, p.volumes, b.node.body.volumeId);
    forall id | id in b.node.body.plotIds
      ensures Known(c, id)
    {
      NamesKnown(c, p, p.plots, id);
    }
    KnownSelf(c, p, b.node);
    FormalIsRevised(c, b.node, "", edits);
    forall i | 0 <= i < |b.stages|
      ensures FormalStage(c, EditableStage(b.stages[i], edits), b.node.id) == ReviseStage(b.stages[i], edits)
    {
      FormalStageRevised(c, p, b, b.stages[i], edits);
    }
  }

  lemma KnownSelf(c: Context, p: Plan, n: Node)
    requires SelfContext(c, p) && n in Nodes(p)
    ensures Known(c, n.id) && Baseline(c, n.id) == Some(n)
  {
    hide Nodes, Baseline;
  }

  lemma FormalPlanRevised(c: Context, p: Plan, edits: Edits)
    requires SelfContext(c, p) && ClosedPlan(p)
    ensures FormalPlan(c, Editable(p, edits)) == Revised(p, edits)
  {
    hide FormalNodes, FormalBlock, EditableNodes, EditableBlock, ReviseAll, ReviseBlock, Nodes, Baseline, IdsOk;
    hide LevelsOk, HashesOk;
    hide BlockClosed, ClosedPlan, SelfContext;
    ClosedKinds(p);
    NodesHas(p);
    forall n | n in p.volumes + p.plots
      ensures Known(c, n.id) && Baseline(c, n.id) == Some(n) && RefsKnown(c, n, "")
    {
      KnownSelf(c, p, n);
    }
    FormalAllRevised(c, p.volumes, "", edits);
    FormalAllRevised(c, p.plots, "", edits);
    forall i | 0 <= i < |p.blocks|
      ensures FormalBlock(c, EditableBlock(p.blocks[i], edits)) == ReviseBlock(p.blocks[i], edits)
    {
      FormalBlockRevised(c, p, p.blocks[i], edits);
    }
    ActiveKnown(c, p);
    var d := Editable(p, edits);
    assert FormalBlocks(c, d.blocks) == ReviseBlocks(p.blocks, edits);
    assert d.activeRef.Some? ==> Resolve(c, d.activeRef.value) == p.activeBlock.value;
  }

  lemma ClosedKinds(p: Plan)
    requires ClosedPlan(p)
    ensures forall n | n in p.volumes :: n.body.VolumeBody?
    ensures forall n | n in p.plots :: n.body.PlotBody?
    ensures forall b | b in p.blocks :: b.node.body.BlockBody?
  {
    hide Nodes, IdsOk, LevelsOk, HashesOk, BlockClosed, ActiveClosed;
  }

  lemma ActiveKnown(c: Context, p: Plan)
    requires SelfContext(c, p) && ClosedPlan(p)
    ensures p.activeBlock.Some? ==> Known(c, p.activeBlock.value)
  {
    hide Nodes, Baseline, IdsOk, LevelsOk, HashesOk, BlockClosed, Shaped;
    NodesHas(p);
  }

  // ----- the editable form is accepted -----

  lemma EditableOrders(p: Plan, edits: Edits)
    requires LevelsOk(p)
    ensures OrdersOk(Editable(p, edits))
  {
    hide EditableBody, FieldsOf;
    var d := Editable(p, edits);
    assert DraftOrdersUnique(d.volumes) && DraftOrdersUnique(d.plots);
    forall b | b in d.blocks
      ensures forall i, j | 0 <= i < j < |b.stages| :: b.stages[i].node.order != b.stages[j].node.order
      ensures forall s | s in b.stages :: DraftOrdersUnique(s.tasks)
    {
      var k :| 0 <= k < |p.blocks| && d.blocks[k] == b;
      EditableStagesOrdered(p.blocks[k].stages, edits);
    }
  }

  lemma EditableStagesOrdered(stages: seq<Stage>, edits: Edits)
    requires StagesLevel(stages)
    ensures var e := EditableStages(stages, edits);
            && (forall i, j | 0 <= i < j < |e| :: e[i].node.order != e[j].node.order)
            && (forall s | s in e :: DraftOrdersUnique(s.tasks))
  {
    hide EditableBody, FieldsOf;
    forall i | 0 <= i < |stages|
      ensures DraftOrdersUnique(EditableStage(stages[i], edits).tasks)
    {
      assert OrdersUnique(stages[i].tasks);
    }
  }

  lemma EditableIdentity(c: Context, p: Plan, n: Node, edits: Edits)
    requires IdsOk(Nodes(p)) && n in Nodes(p)
    requires Baseline(c, n.id) == Some(n) && Retains(c.confirmed, Nodes(p))
    ensures IdentityOk(c, EditableNode(n, edits), n.id)
  {
    hide Nodes, Baseline, FieldsOf;
    if n.id in c.confirmed && c.confirmed[n.id].lifecycle.Retired? {
      var m :| m in Nodes(p) && m.id == n.id && m.lifecycle.Retired?;
      assert m == n;
    }
  }

  lemma EditableIdentities(p: Plan, edits: Edits, confirmed: Option<Plan>, previous: Option<Plan>, factory: nat -> string)
    requires IdsOk(Nodes(p)) && Latest(p, confirmed, previous)
    ensures var ps := PlacedNodes(Editable(p, edits));
            var c := ContextOf(Editable(p, edits), confirmed, previous, factory);
            forall i | 0 <= i < |ps| :: IdentityOk(c, ps[i].node, Assigned(ps, factory)[i])
  {
    hide PlacedNodes, Nodes, Editable, Assigned, EditableNode, Resolved, IdsOk, IdentityOk, Retains, PlanMap, Baseline;
    var d := Editable(p, edits);
    var ps := PlacedNodes(d);
    var c := ContextOf(d, confirmed, previous, factory);
    OwnContext(p, edits, confirmed, previous, factory);
    NodesEditable(p, edits);
    forall i | 0 <= i < |ps|
      ensures IdentityOk(c, ps[i].node, Assigned(ps, factory)[i])
    {
      EditableAt(p, edits, factory, i);
      EditableIdentity(c, p, Nodes(p)[i], edits);
    }
  }

  /** A named node of a level is found among the level's editable forms. */
  lemma NamedEditable(c: Context, p: Plan, nodes: seq<Node>, id: string, edits: Edits)
    requires SelfContext(c, p) && Names(nodes, id)
    requires forall n | n in nodes :: n in Nodes(p)
    ensures id in c.ids && Resolve(c, id) == id
    ensures exists e | e in EditableNodes(nodes, edits) :: Resolve(c, Ref(e)) == id
  {
    hide Nodes, Baseline;
    var i :| 0 <= i < |nodes| && nodes[i].id == id;
    assert nodes[i] in nodes;
    var e := EditableNodes(nodes, edits)[i];
    assert e in EditableNodes(nodes, edits) && Ref(e) == id;
  }

  lemma EditableRelations(c: Context, p: Plan, b: StoryBlock, edits: Edits)
    requires SelfContext(c, p) && BlockClosed(p, b)
    ensures BlockRelationsOk(c, Editable(p, edits), EditableNode(b.node, edits))
  {
    hide SelfContext, Nodes, Names, EditableNodes, EditableBlocks, FieldsOf, Ref;
    NodesHas(p);
    if b.node.body.BlockBody? {
      var plots := b.node.body.plotIds;
      NamedEditable(c, p, p.volumes, b.node.body.volumeId, edits);
      forall id | id in plots
        ensures id in c.ids && Resolve(c, id) == id
        ensures exists e | e in EditableNodes(p.plots, edits) :: Resolve(c, id) == Resolve(c, Ref(e))
      {
        NamedEditable(c, p, p.plots, id, edits);
      }
      assert ResolveAll(c, plots) == plots by {
        forall i | 0 <= i < |plots|
          ensures Resolve(c, plots[i]) == plots[i]
        {
          assert plots[i] in plots;
        }
      }
    }
  }

  lemma EditableActive(c: Context, p: Plan, edits: Edits)
    requires SelfContext(c, p) && ActiveClosed(p)
    ensures ActiveOk(c, Editable(p, edits))
  {
    hide Nodes, Baseline, EditableBody, FieldsOf, EditableNodes;
    NodesHas(p);
    if p.activeBlock.Some? {
      var i :| 0 <= i < |p.blocks| && p.blocks[i].node.id == p.activeBlock.value && p.blocks[i].node.lifecycle.Active?;
      assert p.blocks[i].node in Nodes(p);
      var e := Editable(p, edits).blocks[i];
      assert e in Editable(p, edits).blocks && Ref(e.node) == p.activeBlock.value;
    }
  }

  lemma EditableKeepsHistory(p: Plan, edits: Edits, confirmed: Option<Plan>, factory: nat -> string)
    requires Retains(PlanMap(confirmed), Nodes(p))
    ensures forall id | id in PlanMap(confirmed) :: id in Assigned(PlacedNodes(Editable(p, edits)), factory)
  {
    hide PlacedNodes, Nodes, Editable, Assigned, EditableNode, PlanMap;
    NodesEditable(p, edits);
    forall id | id in PlanMap(confirmed)
      ensures id in Assigned(PlacedNodes(Editable(p, edits)), factory)
    {
      var i :| 0 <= i < |Nodes(p)| && Nodes(p)[i].id == id;
      EditableAt(p, edits, factory, i);
      assert Assigned(PlacedNodes(Editable(p, edits)), factory)[i] == id;
    }
  }

  lemma EditableAccepted(p: Plan, edits: Edits, confirmed: Option<Plan>, previous: Option<Plan>, factory: nat -> string)
    requires ClosedPlan(p) && Latest(p, confirmed, previous)
    ensures Accepts(Editable(p, edits), confirmed, previous, factory)
    ensures SelfContext(ContextOf(Editable(p, edits), confirmed, previous, factory), p)
  {
    hide PlacedNodes, Nodes, Assigned, EditableNode, Resolved, IdsOk, IdentityOk, Retains, PlanMap, SelfContext;
    hide EditableNodes;
    hide RefsOk, OrdersOk, AllocationOk, BlockRelationsOk, ActiveOk, BlockClosed, LevelsOk, HashesOk, ActiveClosed;
    hide Shaped;
    hide EditableStages;
    var d := Editable(p, edits);
    var c := ContextOf(d, confirmed, previous, factory);
    EditableOrders(p, edits);
    EditableRefs(p, edits, factory);
    NoneAllocated(p, edits, factory, PlanMap(confirmed), PlanMap(previous));
    OwnContext(p, edits, confirmed, previous, factory);
    EditableIdentities(p, edits, confirmed, previous, factory);
    forall b | b in d.blocks
      ensures BlockRelationsOk(c, d, b.node)
    {
      var i :| 0 <= i < |p.blocks| && d.blocks[i] == b;
      EditableRelations(c, p, p.blocks[i], edits);
    }
    EditableActive(c, p, edits);
    EditableKeepsHistory(p, edits, confirmed, factory);
  }

  // ----- the theorems -----

  /** Editing fields of the latest aggregate is always accepted and revises node by node. */
  lemma EditsReviseNodeByNode(p: Plan, edits: Edits, confirmed: Option<Plan>, previous: Option<Plan>, factory: nat -> string)
    requires ClosedPlan(p) && Latest(p, confirmed, previous)
    ensures Normalize(Editable(p, edits), confirmed, previous, factory) == Success(Revised(p, edits))
  {
    hide ClosedPlan, Latest, Accepts, Editable, Revised, FormalPlan, ContextOf;
    EditableAccepted(p, edits, confirmed, previous, factory);
    FormalPlanRevised(ContextOf(Editable(p, edits), confirmed, previous, factory), p, edits);
  }

  lemma UnchangedAll(ns: seq<Node>)
    requires forall n | n in ns :: n.hash == NodeDigest(PayloadOf(n))
    ensures ReviseAll(ns, map[]) == ns
  {
    forall i | 0 <= i < |ns|
      ensures Revise(ns[i], map[]) == ns[i]
    {
      assert ns[i] in ns;
    }
  }

  lemma UnchangedBlock(p: Plan, b: StoryBlock)
    requires HashesOk(p) && b in p.blocks
    ensures ReviseBlock(b, map[]) == b
  {
    hide Nodes;
    NodesHas(p);
    UnchangedAll([b.node]);
    assert Revise(b.node, map[]) == ReviseAll([b.node], map[])[0];
    forall i | 0 <= i < |b.stages|
      ensures ReviseStage(b.stages[i], map[]) == b.stages[i]
    {
      UnchangedStage(p, b, b.stages[i]);
    }
    assert ReviseStages(b.stages, map[]) == b.stages;
  }

  lemma UnchangedStage(p: Plan, b: StoryBlock, s: Stage)
    requires HashesOk(p) && b in p.blocks && s in b.stages
    ensures ReviseStage(s, map[]) == s
  {
    hide Nodes;
    NodesHas(p);
    UnchangedAll([s.node]);
    assert Revise(s.node, map[]) == ReviseAll([s.node], map[])[0];
    UnchangedAll(s.tasks);
  }

  lemma UnchangedPlan(p: Plan)
    requires HashesOk(p)
    ensures Revised(p, map[]) == p
  {
    hide Nodes, Revise, ReviseAll, ReviseBlock;
    NodesHas(p);
    UnchangedAll(p.volumes);
    UnchangedAll(p.plots);
    forall i | 0 <= i < |p.blocks|
      ensures ReviseBlock(p.blocks[i], map[]) == p.blocks[i]
    {
      UnchangedBlock(p, p.blocks[i]);
    }
    assert ReviseBlocks(p.blocks, map[]) == p.blocks;
  }

  /** Normalising the editable form of the latest aggregate returns it, whatever the factory would yield. */
  lemma LatestIsFixedPoint(p: Plan, confirmed: Option<Plan>, previous: Option<Plan>, factory: nat -> string)
    requires Canonical(p) && Latest(p, confirmed, previous)
    ensures Normalize(Editable(p, map[]), confirmed, previous, factory) == Success(p)
  {
    hide Latest, Normalize, Editable, Revised, Shaped, IdsOk, HashesOk, LevelsOk, BlockClosed, ActiveClosed;
    EditsReviseNodeByNode(p, map[], confirmed, previous, factory);
    UnchangedPlan(p);
  }

  lemma {:induction false} NoneFresh(ps: seq<Placed>)
    requires forall i | 0 <= i < |ps| :: ps[i].node.identity.Existing?
    ensures FreshCount(ps) == 0
  {
    if ps != [] {
      NoneFresh(ps[..|ps| - 1]);
    }
  }

  /** The editable form asks the factory for no id. */
  lemma EditsAllocateNothing(p: Plan, edits: Edits, factory: nat -> string)
    requires IdsOk(Nodes(p))
    ensures FreshCount(PlacedNodes(Editable(p, edits))) == 0
  {
    hide Nodes, PlacedNodes, Editable;
    NoneAllocated(p, edits, factory, map[], map[]);
    NoneFresh(PlacedNodes(Editable(p, edits)));
  }

  /** A published aggregate is the latest one for itself. */
  lemma LatestForItself(p: Plan, previous: Option<Plan>)
    requires IdsOk(Nodes(p)) && (previous.None? || previous == Some(p))
    ensures Latest(p, Some(p), previous)
  {
    hide Nodes;
    forall id | id in NodeMap(Nodes(p))
      ensures exists n | n in Nodes(p) :: n.id == id && (NodeMap(Nodes(p))[id].lifecycle.Retired? ==> n.lifecycle.Retired?)
    {
      NodeMapKeys(Nodes(p), id);
    }
  }
}
