/** `normalize_planning_aggregate` as it runs: one loop per level, stopping at the first offence. */
module PlanningNormalizer {
  import opened Wrappers
  import opened Planning
  import opened PlanningClosed

  /** The identity check of one node, under the id its reference resolves to. */
  predicate NodeOk(c: Context, d: DraftNode) { IdentityOk(c, d, Resolve(c, Ref(d))) }

  predicate AllOk(c: Context, ds: seq<DraftNode>) { forall d | d in ds :: NodeOk(c, d) }

  predicate StageOk(c: Context, s: StageDraft) { NodeOk(c, s.node) && AllOk(c, s.tasks) }

  predicate StagesOk(c: Context, stages: seq<StageDraft>) { forall s | s in stages :: StageOk(c, s) }

  predicate BlockOk(c: Context, d: DraftPlan, b: BlockDraft) {
    BlockRelationsOk(c, d, b.node) && NodeOk(c, b.node) && StagesOk(c, b.stages)
  }

  predicate PlacedOk(c: Context, ps: seq<Placed>) { forall q | q in ps :: NodeOk(c, q.node) }

  // ----- the walk over the draft checks exactly its levels -----

  lemma PlacedOkConcat(c: Context, a: seq<Placed>, b: seq<Placed>)
    ensures PlacedOk(c, a + b) <==> PlacedOk(c, a) && PlacedOk(c, b)
  {
    hide NodeOk;
    assert forall q | q in a :: q in a + b;
    assert forall q | q in b :: q in a + b;
  }

  lemma PlacedLevel(c: Context, ds: seq<DraftNode>, parent: string)
    ensures PlacedOk(c, PlaceAll(ds, parent)) <==> AllOk(c, ds)
  {
    hide NodeOk;
    var ps := PlaceAll(ds, parent);
    forall i | 0 <= i < |ds|
      ensures ps[i].node == ds[i] && ps[i] in ps
    {
    }
  }

  lemma PlacedOne(c: Context, d: DraftNode, parent: string)
    ensures PlacedOk(c, [Placed(d, parent)]) <==> NodeOk(c, d)
  {
    hide NodeOk;
    assert Placed(d, parent) in [Placed(d, parent)];
  }

  lemma {:induction false} PlacedStagesOk(c: Context, stages: seq<StageDraft>, block: string)
    ensures PlacedOk(c, PlacedStages(stages, block)) <==> StagesOk(c, stages)
  {
    hide NodeOk, AllOk, PlacedOk;
    if stages == [] {
      EmptyOk(c);
    } else {
      var s := stages[0];
      PlacedStagesOk(c, stages[1..], block);
      PlacedOne(c, s.node, block);
      PlacedLevel(c, s.tasks, Ref(s.node));
      PlacedOkConcat(c, [Placed(s.node, block)], PlaceAll(s.tasks, Ref(s.node)));
      PlacedOkConcat(c, [Placed(s.node, block)] + PlaceAll(s.tasks, Ref(s.node)), PlacedStages(stages[1..], block));
      assert StageOk(c, s) <==> PlacedOk(c, [Placed(s.node, block)] + PlaceAll(s.tasks, Ref(s.node)));
      assert stages == [s] + stages[1..];
    }
  }

  lemma EmptyOk(c: Context)
    ensures PlacedOk(c, [])
  {
  }

  predicate BlocksOk(c: Context, blocks: seq<BlockDraft>) {
    forall b | b in blocks :: NodeOk(c, b.node) && StagesOk(c, b.stages)
  }

  lemma {:induction false} PlacedBlocksOk(c: Context, blocks: seq<BlockDraft>)
    ensures PlacedOk(c, PlacedBlocks(blocks)) <==> BlocksOk(c, blocks)
  {
    hide NodeOk, StagesOk, PlacedOk;
    if blocks == [] {
      EmptyOk(c);
    } else {
      var b := blocks[0];
      PlacedBlocksOk(c, blocks[1..]);
      PlacedOne(c, b.node, "");
      PlacedStagesOk(c, b.stages, Ref(b.node));
      PlacedOkConcat(c, [Placed(b.node, "")], PlacedStages(b.stages, Ref(b.node)));
      PlacedOkConcat(c, [Placed(b.node, "")] + PlacedStages(b.stages, Ref(b.node)), PlacedBlocks(blocks[1..]));
      assert blocks == [b] + blocks[1..];
    }
  }

  lemma WalkChecksLevels(c: Context, d: DraftPlan)
    ensures PlacedOk(c, PlacedNodes(d)) <==> AllOk(c, d.volumes) && AllOk(c, d.plots) && BlocksOk(c, d.blocks)
  {
    hide AllOk, BlocksOk, PlacedOk;
    PlacedLevel(c, d.volumes, "");
    PlacedLevel(c, d.plots, "");
    PlacedBlocksOk(c, d.blocks);
    PlacedOkConcat(c, PlaceAll(d.volumes, ""), PlaceAll(d.plots, ""));
    PlacedOkConcat(c, PlaceAll(d.volumes, "") + PlaceAll(d.plots, ""), PlacedBlocks(d.blocks));
  }

  /** Checking each node under its resolved reference is checking it under its assigned id. */
  lemma IdentitiesByReference(d: DraftPlan, confirmed: Option<Plan>, previous: Option<Plan>, factory: nat -> string)
    requires RefsOk(PlacedNodes(d))
    ensures var ps := PlacedNodes(d);
            var c := ContextOf(d, confirmed, previous, factory);
            (forall i | 0 <= i < |ps| :: IdentityOk(c, ps[i].node, Assigned(ps, factory)[i])) <==> PlacedOk(c, ps)
  {
    hide PlacedNodes, RefsOk, Resolved, Assigned, IdentityOk, PlanMap;
    var ps := PlacedNodes(d);
    var c := ContextOf(d, confirmed, previous, factory);
    forall i | 0 <= i < |ps|
      ensures Resolve(c, Ref(ps[i].node)) == Assigned(ps, factory)[i]
      ensures ps[i] in ps
    {
      RefResolves(ps, factory, i);
    }
  }

  // ----- allocation -----

  predicate AllocatedAt(ps: seq<Placed>, factory: nat -> string, confirmed: map<string, Node>, previous: map<string, Node>, i: nat)
    requires i < |ps|
  {
    var id := Assigned(ps, factory)[i];
    && (ps[i].node.identity.Fresh? ==> id != "" && !IsClientKey(ps, id) && id !in confirmed && id !in previous)
    && id !in Assigned(ps, factory)[..i]
  }

  lemma AllocationByNode(ps: seq<Placed>, factory: nat -> string, confirmed: map<string, Node>, previous: map<string, Node>)
    ensures AllocationOk(ps, factory, confirmed, previous) <==>
              (forall i | 0 <= i < |ps| :: AllocatedAt(ps, factory, confirmed, previous, i))
  {
    hide IsClientKey, Assigned;
    var ids := Assigned(ps, factory);
    if forall i | 0 <= i < |ps| :: AllocatedAt(ps, factory, confirmed, previous, i) {
      forall i, j | 0 <= i < j < |ids|
        ensures ids[i] != ids[j]
      {
        assert AllocatedAt(ps, factory, confirmed, previous, j);
        assert ids[..j][i] == ids[i];
      }
      forall i | 0 <= i < |ps| && ps[i].node.identity.Fresh?
        ensures ids[i] != "" && !IsClientKey(ps, ids[i]) && ids[i] !in confirmed && ids[i] !in previous
      {
        assert AllocatedAt(ps, factory, confirmed, previous, i);
      }
    } else {
      var i :| 0 <= i < |ps| && !AllocatedAt(ps, factory, confirmed, previous, i);
      if ids[i] in ids[..i] {
        var k :| 0 <= k < i && ids[..i][k] == ids[i];
        assert !Distinct(ids);
      }
    }
  }

  lemma FreshStep(ps: seq<Placed>, i: nat)
    requires i < |ps|
    ensures FreshCount(ps[..i + 1]) == FreshCount(ps[..i]) + if ps[i].node.identity.Fresh? then 1 else 0
  {
    assert ps[..i + 1][..i] == ps[..i];
  }

  lemma ResolvedStep(ps: seq<Placed>, factory: nat -> string, i: nat)
    requires i < |ps|
    ensures Resolved(ps[..i + 1], factory) == Resolved(ps[..i], factory)[Ref(ps[i].node) := Assigned(ps, factory)[i]]
  {
    assert ps[..i + 1][..i] == ps[..i];
    AssignedPrefix(ps, factory, i + 1);
    assert Assigned(ps[..i + 1], factory)[i] == Assigned(ps, factory)[i];
  }

  method Allocate(ps: seq<Placed>, factory: nat -> string, confirmed: map<string, Node>, previous: map<string, Node>)
    returns (ok: bool, resolved: map<string, string>)
    ensures ok <==> AllocationOk(ps, factory, confirmed, previous)
    ensures ok ==> resolved == Resolved(ps, factory)
  {
    hide IsClientKey, Assigned, Resolved, FreshCount, AllocationOk;
    ghost var ids := Assigned(ps, factory);
    var used: set<string> := {};
    var calls := 0;
    resolved := map[];
    AllocationByNode(ps, factory, confirmed, previous);
    NothingResolved(factory);
    assert ps[..0] == [];
    for i := 0 to |ps|
      invariant used == set id | id in ids[..i]
      invariant calls == FreshCount(ps[..i])
      invariant resolved == Resolved(ps[..i], factory)
      invariant forall k | 0 <= k < i :: AllocatedAt(ps, factory, confirmed, previous, k)
    {
      var node := ps[i].node;
      var nodeId;
      AssignedIs(ps, factory, i);
      FreshStep(ps, i);
      ResolvedStep(ps, factory, i);
      if node.identity.Fresh? {
        nodeId := factory(calls);
        calls := calls + 1;
        if nodeId == "" || IsClientKey(ps, nodeId) || nodeId in confirmed || nodeId in previous {
          assert !AllocatedAt(ps, factory, confirmed, previous, i);
          return false, map[];
        }
      } else {
        nodeId := node.identity.id;
      }
      assert nodeId == ids[i];
      if nodeId in used {
        assert !AllocatedAt(ps, factory, confirmed, previous, i);
        return false, map[];
      }
      assert ids[..i + 1] == ids[..i] + [nodeId];
      used := used + {nodeId};
      resolved := resolved[Ref(node) := nodeId];
    }
    assert ps[..|ps|] == ps;
    ok := true;
  }

  lemma NothingResolved(factory: nat -> string)
    ensures FreshCount([]) == 0 && Resolved([], factory) == map[]
  {
  }

  // ----- levels -----

  method NormalizeLevel(c: Context, ds: seq<DraftNode>, parent: string) returns (ok: bool, nodes: seq<Node>)
    ensures ok <==> AllOk(c, ds)
    ensures ok ==> nodes == FormalNodes(c, ds, parent)
  {
    hide NodeOk, FormalNode;
    nodes := [];
    for i := 0 to |ds|
      invariant |nodes| == i
      invariant forall k | 0 <= k < i :: NodeOk(c, ds[k])
      invariant forall k | 0 <= k < i :: nodes[k] == FormalNode(c, ds[k], parent)
    {
      if !NodeOk(c, ds[i]) {
        assert ds[i] in ds;
        return false, [];
      }
      nodes := nodes + [FormalNode(c, ds[i], parent)];
    }
    assert nodes == FormalNodes(c, ds, parent);
    ok := true;
  }

  method NormalizeStages(c: Context, stages: seq<StageDraft>, block: string) returns (ok: bool, formal: seq<Stage>)
    ensures ok <==> StagesOk(c, stages)
    ensures ok ==> formal == FormalStages(c, stages, block)
  {
    hide NodeOk, AllOk, FormalNode, FormalNodes;
    formal := [];
    for i := 0 to |stages|
      invariant |formal| == i
      invariant forall k | 0 <= k < i :: StageOk(c, stages[k])
      invariant forall k | 0 <= k < i :: formal[k] == FormalStage(c, stages[k], block)
    {
      var s := stages[i];
      var tasksOk, tasks := NormalizeLevel(c, s.tasks, Ref(s.node));
      if !tasksOk || !NodeOk(c, s.node) {
        assert s in stages && !StageOk(c, s);
        return false, [];
      }
      formal := formal + [Stage(FormalNode(c, s.node, block), tasks)];
    }
    assert formal == FormalStages(c, stages, block);
    ok := true;
  }

  method NormalizeBlocks(c: Context, d: DraftPlan) returns (ok: bool, formal: seq<StoryBlock>)
    ensures ok <==> forall b | b in d.blocks :: BlockOk(c, d, b)
    ensures ok ==> formal == FormalBlocks(c, d.blocks)
  {
    hide NodeOk, StagesOk, BlockRelationsOk, FormalNode, FormalStages;
    formal := [];
    for i := 0 to |d.blocks|
      invariant |formal| == i
      invariant forall k | 0 <= k < i :: BlockOk(c, d, d.blocks[k])
      invariant forall k | 0 <= k < i :: formal[k] == FormalBlock(c, d.blocks[k])
    {
      var b := d.blocks[i];
      if !BlockRelationsOk(c, d, b.node) {
        assert b in d.blocks && !BlockOk(c, d, b);
        return false, [];
      }
      var stagesOk, stages := NormalizeStages(c, b.stages, Ref(b.node));
      if !stagesOk || !NodeOk(c, b.node) {
        assert b in d.blocks && !BlockOk(c, d, b);
        return false, [];
      }
      formal := formal + [StoryBlock(FormalNode(c, b.node, ""), stages)];
    }
    assert formal == FormalBlocks(c, d.blocks);
    ok := true;
  }

  // ----- the whole -----

  method NodesById(p: Option<Plan>) returns (nodes: map<string, Node>)
    ensures nodes == PlanMap(p)
  {
    hide Nodes;
    nodes := map[];
    if p.Some? {
      var walk := Nodes(p.value);
      assert walk[..0] == [];
      for i := 0 to |walk|
        invariant nodes == NodeMap(walk[..i])
      {
        nodes := nodes[walk[i].id := walk[i]];
        assert walk[..i + 1][..i] == walk[..i];
      }
      assert walk[..|walk|] == walk;
    }
  }

  /** The accepted drafts, said level by level. */
  lemma AcceptsByLevel(d: DraftPlan, confirmed: Option<Plan>, previous: Option<Plan>, factory: nat -> string)
    ensures var ps := PlacedNodes(d);
            var c := ContextOf(d, confirmed, previous, factory);
            Accepts(d, confirmed, previous, factory) <==>
              && RefsOk(ps) && OrdersOk(d) && AllocationOk(ps, factory, c.confirmed, c.previous)
              && AllOk(c, d.volumes) && AllOk(c, d.plots)
              && (forall b | b in d.blocks :: BlockOk(c, d, b))
              && ActiveOk(c, d)
              && (forall id | id in c.confirmed :: id in Assigned(ps, factory))
  {
    hide PlacedNodes, RefsOk, OrdersOk, AllocationOk, AllOk, NodeOk, StagesOk, BlockRelationsOk, ActiveOk, Assigned;
    hide IdentityOk;
    hide Resolved, PlanMap, PlacedOk;
    var c := ContextOf(d, confirmed, previous, factory);
    if RefsOk(PlacedNodes(d)) {
      IdentitiesByReference(d, confirmed, previous, factory);
      WalkChecksLevels(c, d);
    }
  }

  /** The ids of the aggregate built from an accepted draft are the assigned ones. */
  lemma KeptIds(d: DraftPlan, confirmed: Option<Plan>, previous: Option<Plan>, factory: nat -> string, id: string)
    requires RefsOk(PlacedNodes(d))
    ensures id in Assigned(PlacedNodes(d), factory) <==>
              Names(Nodes(FormalPlan(ContextOf(d, confirmed, previous, factory), d)), id)
  {
    hide PlacedNodes, Nodes, RefsOk, Assigned, Resolved, FormalPlan, FormalNode, PlanMap;
    FormalIds(d, confirmed, previous, factory);
    var nodes := Nodes(FormalPlan(ContextOf(d, confirmed, previous, factory), d));
    forall i | 0 <= i < |nodes|
      ensures nodes[i] in nodes && nodes[i].id == Assigned(PlacedNodes(d), factory)[i]
    {
    }
  }

  method NormalizePlanningAggregate(d: DraftPlan, confirmed: Option<Plan>, previous: Option<Plan>, factory: nat -> string)
    returns (r: Result<Plan, PlanningError>)
    ensures r == Normalize(d, confirmed, previous, factory)
  {
    hide PlacedNodes, RefsOk, OrdersOk, AllocationOk, AllOk, BlockOk, ActiveOk, Assigned, Resolved, PlanMap;
    hide FormalNodes, FormalBlocks;
    hide Nodes, Names, Accepts;
    AcceptsByLevel(d, confirmed, previous, factory);
    var confirmedNodes := NodesById(confirmed);
    var draftNodes := NodesById(previous);
    var ps := PlacedNodes(d);
    if !RefsOk(ps) || !OrdersOk(d) {
      return Failure(InvalidDraft);
    }
    var allIssued, ids := Allocate(ps, factory, confirmedNodes, draftNodes);
    if !allIssued {
      return Failure(InvalidDraft);
    }
    var c := Context(ids, confirmedNodes, draftNodes);
    var volumesOk, volumes := NormalizeLevel(c, d.volumes, "");
    if !volumesOk {
      return Failure(InvalidDraft);
    }
    var plotsOk, plots := NormalizeLevel(c, d.plots, "");
    if !plotsOk {
      return Failure(InvalidDraft);
    }
    var blocksOk, blocks := NormalizeBlocks(c, d);
    if !blocksOk || !ActiveOk(c, d) {
      return Failure(InvalidDraft);
    }
    var active := if d.activeRef.Some? then Some(Resolve(c, d.activeRef.value)) else None;
    var aggregate := Hashed(Plan(active, volumes, plots, blocks, OtherPlanDigest("")));
    var normalizedIds := set n | n in Nodes(aggregate) :: n.id;
    forall id: string | true
      ensures id in Assigned(ps, factory) <==> id in normalizedIds
    {
      KeptIds(d, confirmed, previous, factory, id);
      NamesAsSet(Nodes(aggregate), id);
    }
    if !(confirmedNodes.Keys <= normalizedIds) {
      return Failure(InvalidDraft);
    }
    r := Success(aggregate);
  }

  lemma NamesAsSet(nodes: seq<Node>, id: string)
    ensures Names(nodes, id) <==> id in set n | n in nodes :: n.id
  {
  }
}
