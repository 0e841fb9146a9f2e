/** Whatever ids the factory yields, an accepted draft becomes a closed aggregate. */
module PlanningClosed {
  import opened Wrappers
  import opened Planning

  // ----- closed aggregates -----

  predicate OrdersUnique(nodes: seq<Node>) {
    forall i, j | 0 <= i < j < |nodes| :: nodes[i].order != nodes[j].order
  }

  predicate StagesLevel(stages: seq<Stage>) {
    && (forall i, j | 0 <= i < j < |stages| :: stages[i].node.order != stages[j].node.order)
    && (forall s | s in stages :: OrdersUnique(s.tasks))
  }

  predicate LevelsOk(p: Plan) {
    && OrdersUnique(p.volumes) && OrdersUnique(p.plots)
    && (forall i, j | 0 <= i < j < |p.blocks| :: p.blocks[i].node.order != p.blocks[j].node.order)
    && (forall b | b in p.blocks :: StagesLevel(b.stages))
  }

  predicate IdsOk(nodes: seq<Node>) {
    && (forall i, j | 0 <= i < j < |nodes| :: nodes[i].id != nodes[j].id)
    && (forall n | n in nodes :: n.id != "")
  }

  function PayloadOf(n: Node): Payload { Payload(n.id, n.lifecycle, n.order, n.body) }

  predicate HashesOk(p: Plan) {
    && (forall n | n in Nodes(p) :: n.hash == NodeDigest(PayloadOf(n)))
    && p.hash == Hashed(p).hash
  }

  predicate Names(nodes: seq<Node>, id: string) { exists n | n in nodes :: n.id == id }

  predicate BlockClosed(p: Plan, b: StoryBlock) {
    && (b.node.body.BlockBody? ==>
          && Names(p.volumes, b.node.body.volumeId)
          && Distinct(b.node.body.plotIds)
          && forall id | id in b.node.body.plotIds :: Names(p.plots, id))
    && (forall s | s in b.stages ::
          && (s.node.body.StageBody? ==> s.node.body.blockId == b.node.id)
          && (forall t | t in s.tasks :: t.body.TaskBody? ==> t.body.stageId == s.node.id))
  }

  predicate ActiveClosed(p: Plan) {
    p.activeBlock.Some? ==> exists b | b in p.blocks :: b.node.id == p.activeBlock.value && b.node.lifecycle.Active?
  }

  /** An aggregate whose relations stay inside it, with unique ids and orders. */
  predicate ClosedPlan(p: Plan) {
    && Shaped(p)
    && IdsOk(Nodes(p))
    && LevelsOk(p)
    && (forall b | b in p.blocks :: BlockClosed(p, b))
    && ActiveClosed(p)
  }

  /** A closed aggregate with true hashes. */
  predicate Canonical(p: Plan) { ClosedPlan(p) && HashesOk(p) }

  // ----- the nodes of the formal aggregate, place by place -----

  function FormalPlaced(c: Context, ps: seq<Placed>): (r: seq<Node>)
    ensures |r| == |ps|
  {
    seq(|ps|, i requires 0 <= i < |ps| => FormalNode(c, ps[i].node, ps[i].parent))
  }

  lemma FormalPlacedConcat(c: Context, a: seq<Placed>, b: seq<Placed>)
    ensures FormalPlaced(c, a + b) == FormalPlaced(c, a) + FormalPlaced(c, b)
  {
  }

  lemma FormalNodesPlaced(c: Context, ds: seq<DraftNode>, parent: string)
    ensures FormalNodes(c, ds, parent) == FormalPlaced(c, PlaceAll(ds, parent))
  {
  }

  lemma {:induction false} StagesPlaced(c: Context, stages: seq<StageDraft>, block: string)
    ensures StageNodes(FormalStages(c, stages, block)) == FormalPlaced(c, PlacedStages(stages, block))
  {
    if stages != [] {
      hide FormalNode;
      var s := stages[0];
      StagesPlaced(c, stages[1..], block);
      assert FormalStages(c, stages, block)[1..] == FormalStages(c, stages[1..], block);
      var head := [Placed(s.node, block)];
      var tasks := PlaceAll(s.tasks, Ref(s.node));
      FormalNodesPlaced(c, s.tasks, Ref(s.node));
      FormalPlacedConcat(c, head, tasks);
      FormalPlacedConcat(c, head + tasks, PlacedStages(stages[1..], block));
      assert FormalPlaced(c, head) == [FormalNode(c, s.node, block)];
    }
  }

  lemma {:induction false} BlocksPlaced(c: Context, blocks: seq<BlockDraft>)
    ensures BlockNodes(FormalBlocks(c, blocks)) == FormalPlaced(c, PlacedBlocks(blocks))
  {
    if blocks != [] {
      hide FormalNode;
      var b := blocks[0];
      BlocksPlaced(c, blocks[1..]);
      assert FormalBlocks(c, blocks)[1..] == FormalBlocks(c, blocks[1..]);
      var head := [Placed(b.node, "")];
      var stages := PlacedStages(b.stages, Ref(b.node));
      StagesPlaced(c, b.stages, Ref(b.node));
      FormalPlacedConcat(c, head, stages);
      FormalPlacedConcat(c, head + stages, PlacedBlocks(blocks[1..]));
      assert FormalPlaced(c, head) == [FormalNode(c, b.node, "")];
    }
  }

  lemma NodesPlaced(c: Context, d: DraftPlan)
    ensures Nodes(FormalPlan(c, d)) == FormalPlaced(c, PlacedNodes(d))
  {
    hide FormalNode;
    FormalNodesPlaced(c, d.volumes, "");
    FormalNodesPlaced(c, d.plots, "");
    BlocksPlaced(c, d.blocks);
    FormalPlacedConcat(c, PlaceAll(d.volumes, ""), PlaceAll(d.plots, ""));
    FormalPlacedConcat(c, PlaceAll(d.volumes, "") + PlaceAll(d.plots, ""), PlacedBlocks(d.blocks));
  }

  // ----- resolved ids -----

  lemma {:induction false} AssignedPrefix(ps: seq<Placed>, factory: nat -> string, n: nat)
    requires n <= |ps|
    ensures Assigned(ps[..n], factory) == Assigned(ps, factory)[..n]
  {
    if n < |ps| {
      AssignedPrefix(ps[..|ps| - 1], factory, n);
      assert ps[..|ps| - 1][..n] == ps[..n];
    } else {
      assert ps[..n] == ps;
    }
  }

  /** Every reference resolves to the id its node was assigned. */
  lemma {:induction false} RefResolves(ps: seq<Placed>, factory: nat -> string, i: nat)
    requires RefsOk(ps) && i < |ps|
    ensures Ref(ps[i].node) in Resolved(ps, factory)
    ensures Resolved(ps, factory)[Ref(ps[i].node)] == Assigned(ps, factory)[i]
  {
    var n := |ps| - 1;
    if i < n {
      RefResolves(ps[..n], factory, i);
      AssignedPrefix(ps, factory, n);
      assert Assigned(ps, factory)[i] == Assigned(ps[..n], factory)[i];
    }
  }

  predicate IsRef(ps: seq<Placed>, ref: string) { exists i | 0 <= i < |ps| :: Ref(ps[i].node) == ref }

  lemma {:induction false} ResolvedIsRef(ps: seq<Placed>, factory: nat -> string, ref: string)
    requires ref in Resolved(ps, factory)
    ensures IsRef(ps, ref)
  {
    var n := |ps| - 1;
    if ref != Ref(ps[n].node) {
      assert ref in Resolved(ps[..n], factory);
      ResolvedIsRef(ps[..n], factory, ref);
      var i :| 0 <= i < n && Ref(ps[..n][i].node) == ref;
      assert Ref(ps[i].node) == ref;
    }
  }

  /** Existing nodes keep their ids, new nodes get the factory's. */
  lemma {:induction false} AssignedIs(ps: seq<Placed>, factory: nat -> string, i: nat)
    requires i < |ps|
    ensures ps[i].node.identity.Existing? ==> Assigned(ps, factory)[i] == ps[i].node.identity.id
    ensures ps[i].node.identity.Fresh? ==> Assigned(ps, factory)[i] == factory(FreshCount(ps[..i]))
  {
    if i < |ps| - 1 {
      AssignedIs(ps[..|ps| - 1], factory, i);
      assert ps[..|ps| - 1][..i] == ps[..i];
    }
  }

  /** The i-th node of the result is the i-th draft node under its assigned id. */
  lemma FormalIds(d: DraftPlan, confirmed: Option<Plan>, previous: Option<Plan>, factory: nat -> string)
    requires RefsOk(PlacedNodes(d))
    ensures var ps := PlacedNodes(d);
            var c := ContextOf(d, confirmed, previous, factory);
            var nodes := Nodes(FormalPlan(c, d));
            && |nodes| == |ps|
            && forall i | 0 <= i < |ps| ::
                 && nodes[i] == FormalNode(c, ps[i].node, ps[i].parent)
                 && nodes[i].id == Assigned(ps, factory)[i]
                 && Resolve(c, Ref(ps[i].node)) == Assigned(ps, factory)[i]
  {
    hide PlacedNodes, Nodes, RefsOk, Resolved, Assigned, FormalPlan, PlanMap;
    var ps := PlacedNodes(d);
    var c := ContextOf(d, confirmed, previous, factory);
    NodesPlaced(c, d);
    forall i | 0 <= i < |ps|
      ensures Resolve(c, Ref(ps[i].node)) == Assigned(ps, factory)[i]
    {
      RefResolves(ps, factory, i);
    }
  }

  // ----- membership -----

  lemma {:induction false} StageNodesHas(stages: seq<Stage>, n: Node)
    ensures n in StageNodes(stages) <==> exists s | s in stages :: n == s.node || n in s.tasks
  {
    if stages != [] {
      StageNodesHas(stages[1..], n);
    }
  }

  lemma {:induction false} BlockNodesHas(blocks: seq<StoryBlock>, n: Node)
    ensures n in BlockNodes(blocks) <==> exists b | b in blocks :: n == b.node || n in StageNodes(b.stages)
  {
    if blocks != [] {
      BlockNodesHas(blocks[1..], n);
    }
  }

  lemma NodesHas(p: Plan)
    ensures forall n | n in p.volumes :: n in Nodes(p)
    ensures forall n | n in p.plots :: n in Nodes(p)
    ensures forall b | b in p.blocks :: b.node in Nodes(p)
    ensures forall b, s | b in p.blocks && s in b.stages :: s.node in Nodes(p)
    ensures forall b, s, t | b in p.blocks && s in b.stages && t in s.tasks :: t in Nodes(p)
  {
    forall b | b in p.blocks
      ensures b.node in Nodes(p)
    {
      BlockNodesHas(p.blocks, b.node);
    }
    forall b, s | b in p.blocks && s in b.stages
      ensures s.node in Nodes(p)
    {
      StageNodesHas(b.stages, s.node);
      BlockNodesHas(p.blocks, s.node);
    }
    forall b, s, t | b in p.blocks && s in b.stages && t in s.tasks
      ensures t in Nodes(p)
    {
      StageNodesHas(b.stages, t);
      BlockNodesHas(p.blocks, t);
    }
  }

  // ----- the theorem -----

  lemma FormalKinds(c: Context, ds: seq<DraftNode>, parent: string, k: Kind)
    requires AllOfDraftKind(ds, k)
    ensures AllOfKind(FormalNodes(c, ds, parent), k)
  {
  }

  lemma FormalStageShaped(c: Context, s: StageDraft, block: string)
    requires DraftKind(s.node.body) == StageKind && AllOfDraftKind(s.tasks, TaskKind)
    ensures KindOf(FormalStage(c, s, block).node.body) == StageKind && AllOfKind(FormalStage(c, s, block).tasks, TaskKind)
  {
    FormalKinds(c, s.tasks, Ref(s.node), TaskKind);
  }

  lemma FormalShaped(c: Context, d: DraftPlan)
    requires DraftShaped(d)
    ensures Shaped(FormalPlan(c, d))
  {
    hide FormalNodes, FormalStage, AllOfDraftKind, AllOfKind;
    FormalKinds(c, d.volumes, "", VolumeKind);
    FormalKinds(c, d.plots, "", PlotKind);
    forall i, j | 0 <= i < |d.blocks| && 0 <= j < |d.blocks[i].stages|
      ensures var s := FormalStages(c, d.blocks[i].stages, Ref(d.blocks[i].node))[j];
              KindOf(s.node.body) == StageKind && AllOfKind(s.tasks, TaskKind)
    {
      assert d.blocks[i] in d.blocks && d.blocks[i].stages[j] in d.blocks[i].stages;
      FormalStageShaped(c, d.blocks[i].stages[j], Ref(d.blocks[i].node));
    }
  }

  lemma FormalOrders(c: Context, ds: seq<DraftNode>, parent: string)
    requires DraftOrdersUnique(ds)
    ensures OrdersUnique(FormalNodes(c, ds, parent))
  {
  }

  lemma FormalStagesLevel(c: Context, b: BlockDraft)
    requires forall i, j | 0 <= i < j < |b.stages| :: b.stages[i].node.order != b.stages[j].node.order
    requires forall s | s in b.stages :: DraftOrdersUnique(s.tasks)
    ensures StagesLevel(FormalBlock(c, b).stages)
  {
    hide FormalNodes, DraftOrdersUnique, OrdersUnique;
    forall i | 0 <= i < |b.stages|
      ensures OrdersUnique(FormalBlock(c, b).stages[i].tasks)
    {
      FormalOrders(c, b.stages[i].tasks, Ref(b.stages[i].node));
    }
  }

  lemma FormalLevels(c: Context, d: DraftPlan)
    requires OrdersOk(d)
    ensures LevelsOk(FormalPlan(c, d))
  {
    hide FormalNodes, FormalStages, DraftOrdersUnique, OrdersUnique;
    FormalOrders(c, d.volumes, "");
    FormalOrders(c, d.plots, "");
    forall i | 0 <= i < |d.blocks|
      ensures StagesLevel(FormalBlocks(c, d.blocks)[i].stages)
    {
      FormalStagesLevel(c, d.blocks[i]);
    }
  }

  lemma FormalHashes(c: Context, d: DraftPlan)
    ensures HashesOk(FormalPlan(c, d))
  {
    hide Nodes, FormalNodes, FormalBlocks, PlacedNodes;
    var p := FormalPlan(c, d);
    var ps := PlacedNodes(d);
    assert FormalPlan(c, d).hash == Hashed(p).hash;
    NodesPlaced(c, d);
    forall n | n in Nodes(p)
      ensures n.hash == NodeDigest(PayloadOf(n))
    {
      var i :| 0 <= i < |ps| && FormalPlaced(c, ps)[i] == n;
      assert n == FormalNode(c, ps[i].node, ps[i].parent);
    }
  }

  lemma FormalIdsOk(d: DraftPlan, confirmed: Option<Plan>, previous: Option<Plan>, factory: nat -> string)
    requires RefsOk(PlacedNodes(d))
    requires AllocationOk(PlacedNodes(d), factory, PlanMap(confirmed), PlanMap(previous))
    ensures IdsOk(Nodes(FormalPlan(ContextOf(d, confirmed, previous, factory), d)))
  {
    hide PlacedNodes, Nodes, PlanMap, FormalPlan, FormalNode;
    FormalIds(d, confirmed, previous, factory);
    var ps := PlacedNodes(d);
    forall i | 0 <= i < |ps|
      ensures Assigned(ps, factory)[i] != ""
    {
      AssignedIs(ps, factory, i);
    }
  }

  lemma FormalBlockClosed(c: Context, d: DraftPlan, b: BlockDraft)
    requires b in d.blocks && BlockRelationsOk(c, d, b.node)
    ensures BlockClosed(FormalPlan(c, d), FormalBlock(c, b))
  {
    var p := FormalPlan(c, d);
    forall v, id | v in d.volumes && id == Resolve(c, Ref(v))
      ensures Names(p.volumes, id)
    {
      var i :| 0 <= i < |d.volumes| && d.volumes[i] == v;
      assert p.volumes[i] in p.volumes && p.volumes[i].id == id;
    }
    forall v, id | v in d.plots && id == Resolve(c, Ref(v))
      ensures Names(p.plots, id)
    {
      var i :| 0 <= i < |d.plots| && d.plots[i] == v;
      assert p.plots[i] in p.plots && p.plots[i].id == id;
    }
    if b.node.body.DraftBlock? {
      forall id | id in ResolveAll(c, b.node.body.plotRefs)
        ensures Names(p.plots, id)
      {
        var k :| 0 <= k < |b.node.body.plotRefs| && ResolveAll(c, b.node.body.plotRefs)[k] == id;
        assert b.node.body.plotRefs[k] in b.node.body.plotRefs;
      }
    }
  }

  lemma FormalActive(c: Context, d: DraftPlan)
    requires ActiveOk(c, d)
    ensures ActiveClosed(FormalPlan(c, d))
  {
    if d.activeRef.Some? {
      var b :| b in d.blocks && Resolve(c, d.activeRef.value) == Resolve(c, Ref(b.node)) && b.node.lifecycle.Active?;
      var i :| 0 <= i < |d.blocks| && d.blocks[i] == b;
      assert FormalPlan(c, d).blocks[i] in FormalPlan(c, d).blocks;
    }
  }

  lemma AcceptsParts(d: DraftPlan, confirmed: Option<Plan>, previous: Option<Plan>, factory: nat -> string)
    requires Accepts(d, confirmed, previous, factory)
    ensures RefsOk(PlacedNodes(d)) && OrdersOk(d)
    ensures AllocationOk(PlacedNodes(d), factory, PlanMap(confirmed), PlanMap(previous))
    ensures ActiveOk(ContextOf(d, confirmed, previous, factory), d)
    ensures forall b | b in d.blocks :: BlockRelationsOk(ContextOf(d, confirmed, previous, factory), d, b.node)
  {
    hide PlacedNodes, RefsOk, OrdersOk, AllocationOk, ActiveOk, BlockRelationsOk, IdentityOk, Resolved, PlanMap;
  }

  /** Every aggregate the normaliser returns is closed. */
  lemma NormalizedIsCanonical(d: DraftPlan, confirmed: Option<Plan>, previous: Option<Plan>, factory: nat -> string)
    requires DraftShaped(d) && Normalize(d, confirmed, previous, factory).Success?
    ensures Canonical(Normalize(d, confirmed, previous, factory).value)
  {
    hide ContextOf, DraftShaped, Shaped, OrdersOk, LevelsOk, HashesOk, IdsOk, ActiveOk, ActiveClosed, RefsOk;
    hide AllocationOk;
    hide BlockRelationsOk, BlockClosed, IdentityOk, PlacedNodes, Nodes, FormalBlock, FormalNodes;
    var c := ContextOf(d, confirmed, previous, factory);
    var p := FormalPlan(c, d);
    AcceptsParts(d, confirmed, previous, factory);
    FormalShaped(c, d);
    FormalLevels(c, d);
    FormalHashes(c, d);
    FormalIdsOk(d, confirmed, previous, factory);
    FormalActive(c, d);
    forall b | b in p.blocks
      ensures BlockClosed(p, b)
    {
      var i :| 0 <= i < |d.blocks| && p.blocks[i] == b;
      FormalBlockClosed(c, d, d.blocks[i]);
    }
  }
}
