/** Renaming an aggregate into an importing project and recomputing its hashes. */
module PlanningImport {
  import opened Wrappers
  import opened Planning
  import opened PlanningClosed
  import opened ImportIdentities

  function TypeName(k: Kind): string {
    match k
    case VolumeKind => "planning-volume"
    case PlotKind => "planning-plot"
    case BlockKind => "story-block"
    case StageKind => "planning-stage"
    case TaskKind => "scene-task"
  }

  const ENTITY := "canon-entity"

  predicate HasTarget(ids: IdMap, k: Kind, id: string) { (TypeName(k), id) in ids }

  function Target(ids: IdMap, k: Kind, id: string): string {
    if HasTarget(ids, k, id) then ids[(TypeName(k), id)] else id
  }

  function TargetAll(ids: IdMap, k: Kind, xs: seq<string>): (r: seq<string>)
    ensures |r| == |xs|
  {
    seq(|xs|, i requires 0 <= i < |xs| => Target(ids, k, xs[i]))
  }

  // ----- one node -----

  function EntityOf(fields: Fields): Option<string> {
    if "characterDesign" in fields && fields["characterDesign"].Design? then fields["characterDesign"].design.entityId else None
  }

  function RenamedFields(ids: IdMap, fields: Fields): Fields {
    if EntityOf(fields).None? then fields
    else
      var e := (ENTITY, EntityOf(fields).value);
      var design := fields["characterDesign"].design;
      fields["characterDesign" := Design(design.(entityId := Some(if e in ids then ids[e] else e.1)))]
  }

  function RenamedBody(ids: IdMap, b: Body): Body {
    match b
    case VolumeBody(_) => b
    case PlotBody(f) => PlotBody(RenamedFields(ids, f))
    case BlockBody(volume, plots, f) => BlockBody(Target(ids, VolumeKind, volume), TargetAll(ids, PlotKind, plots), f)
    case StageBody(block, f) => StageBody(Target(ids, BlockKind, block), f)
    case TaskBody(stage, f) => TaskBody(Target(ids, StageKind, stage), f)
  }

  function RenamedNode(ids: IdMap, n: Node): Node {
    n.(id := Target(ids, KindOf(n.body), n.id), body := RenamedBody(ids, n.body))
  }

  function RehashedNode(n: Node): Node { n.(hash := NodeDigest(PayloadOf(n))) }

  /** Every id slot of the node is in the map. */
  predicate BodyMapped(ids: IdMap, b: Body) {
    match b
    case VolumeBody(_) => true
    case PlotBody(f) => EntityOf(f).Some? ==> (ENTITY, EntityOf(f).value) in ids
    case BlockBody(volume, plots, _) => HasTarget(ids, VolumeKind, volume) && forall x | x in plots :: HasTarget(ids, PlotKind, x)
    case StageBody(block, _) => HasTarget(ids, BlockKind, block)
    case TaskBody(stage, _) => HasTarget(ids, StageKind, stage)
  }

  predicate NodeMapped(ids: IdMap, n: Node) { HasTarget(ids, KindOf(n.body), n.id) && BodyMapped(ids, n.body) }

  // ----- a whole aggregate -----

  /**
    The rename pass, the rehash pass, one after the other, or both followed by reading the
    stored fields back into the planning models.
  */
  datatype Pass = Rename(ids: IdMap) | Rehash | Import(ids: IdMap) | Arrive(ids: IdMap, read: Fields -> Fields)

  function ReadBody(read: Fields -> Fields, b: Body): Body { b.(fields := read(b.fields)) }

  function PassNode(w: Pass, n: Node): Node {
    match w
    case Rename(ids) => RenamedNode(ids, n)
    case Rehash => RehashedNode(n)
    case Import(ids) => RehashedNode(RenamedNode(ids, n))
    case Arrive(ids, read) =>
      var m := RehashedNode(RenamedNode(ids, n));
      m.(body := ReadBody(read, m.body))
  }

  function PassAll(w: Pass, ns: seq<Node>): (r: seq<Node>)
    ensures |r| == |ns|
  {
    seq(|ns|, i requires 0 <= i < |ns| => PassNode(w, ns[i]))
  }

  function PassStage(w: Pass, s: Stage): Stage { Stage(PassNode(w, s.node), PassAll(w, s.tasks)) }

  function PassStages(w: Pass, stages: seq<Stage>): (r: seq<Stage>)
    ensures |r| == |stages|
  {
    seq(|stages|, i requires 0 <= i < |stages| => PassStage(w, stages[i]))
  }

  function PassBlock(w: Pass, b: StoryBlock): StoryBlock { StoryBlock(PassNode(w, b.node), PassStages(w, b.stages)) }

  function PassBlocks(w: Pass, blocks: seq<StoryBlock>): (r: seq<StoryBlock>)
    ensures |r| == |blocks|
  {
    seq(|blocks|, i requires 0 <= i < |blocks| => PassBlock(w, blocks[i]))
  }

  function PassActive(w: Pass, active: Option<string>): Option<string> {
    if active.Some? && !w.Rehash? then Some(Target(w.ids, BlockKind, active.value)) else active
  }

  function PassPlan(w: Pass, p: Plan): Plan {
    p.(activeBlock := PassActive(w, p.activeBlock), volumes := PassAll(w, p.volumes), plots := PassAll(w, p.plots),
       blocks := PassBlocks(w, p.blocks))
  }

  predicate PlanMapped(ids: IdMap, p: Plan) {
    && (forall n | n in Nodes(p) :: NodeMapped(ids, n))
    && (p.activeBlock.Some? ==> HasTarget(ids, BlockKind, p.activeBlock.value))
  }

  /** The aggregate the importing project stores. */
  function Imported(ids: IdMap, p: Plan): Plan { Passed(Import(ids), p) }

  function Passed(w: Pass, p: Plan): Plan { Hashed(PassPlan(w, p)) }

  // ----- the passes as loops overwriting slots -----

  method RewriteLevel(ns: seq<Node>, ids: IdMap) returns (ok: bool, r: seq<Node>)
    ensures ok <==> forall n | n in ns :: NodeMapped(ids, n)
    ensures ok ==> r == PassAll(Rename(ids), ns)
  {
    hide NodeMapped, RenamedNode;
    r := ns;
    for i := 0 to |ns|
      invariant |r| == |ns|
      invariant forall k | 0 <= k < i :: NodeMapped(ids, ns[k]) && r[k] == RenamedNode(ids, ns[k])
      invariant forall k | i <= k < |ns| :: r[k] == ns[k]
    {
      if !NodeMapped(ids, r[i]) {
        assert ns[i] in ns;
        return false, ns;
      }
      r := r[i := RenamedNode(ids, r[i])];
    }
    assert r == PassAll(Rename(ids), ns);
    ok := true;
  }

  predicate StageMapped(ids: IdMap, s: Stage) { NodeMapped(ids, s.node) && forall t | t in s.tasks :: NodeMapped(ids, t) }

  predicate BlockMapped(ids: IdMap, b: StoryBlock) { NodeMapped(ids, b.node) && forall s | s in b.stages :: StageMapped(ids, s) }

  method RewriteStages(stages: seq<Stage>, ids: IdMap) returns (ok: bool, r: seq<Stage>)
    ensures ok <==> forall s | s in stages :: StageMapped(ids, s)
    ensures ok ==> r == PassStages(Rename(ids), stages)
  {
    hide NodeMapped, RenamedNode, PassAll;
    r := stages;
    for i := 0 to |stages|
      invariant |r| == |stages|
      invariant forall k | 0 <= k < i :: StageMapped(ids, stages[k]) && r[k] == PassStage(Rename(ids), stages[k])
      invariant forall k | i <= k < |stages| :: r[k] == stages[k]
    {
      var mapped, tasks := RewriteLevel(r[i].tasks, ids);
      if !mapped || !NodeMapped(ids, r[i].node) {
        assert stages[i] in stages && !StageMapped(ids, stages[i]);
        return false, stages;
      }
      r := r[i := Stage(RenamedNode(ids, r[i].node), tasks)];
    }
    assert r == PassStages(Rename(ids), stages);
    ok := true;
  }

  method RewriteBlocks(blocks: seq<StoryBlock>, ids: IdMap) returns (ok: bool, r: seq<StoryBlock>)
    ensures ok <==> forall b | b in blocks :: BlockMapped(ids, b)
    ensures ok ==> r == PassBlocks(Rename(ids), blocks)
  {
    hide NodeMapped, RenamedNode, PassStages, StageMapped;
    r := blocks;
    for i := 0 to |blocks|
      invariant |r| == |blocks|
      invariant forall k | 0 <= k < i :: BlockMapped(ids, blocks[k]) && r[k] == PassBlock(Rename(ids), blocks[k])
      invariant forall k | i <= k < |blocks| :: r[k] == blocks[k]
    {
      var mapped, stages := RewriteStages(r[i].stages, ids);
      if !mapped || !NodeMapped(ids, r[i].node) {
        assert blocks[i] in blocks && !BlockMapped(ids, blocks[i]);
        return false, blocks;
      }
      r := r[i := StoryBlock(RenamedNode(ids, r[i].node), stages)];
    }
    assert r == PassBlocks(Rename(ids), blocks);
    ok := true;
  }

  lemma MappedByLevel(ids: IdMap, p: Plan)
    ensures PlanMapped(ids, p) <==>
              && (forall n | n in p.volumes :: NodeMapped(ids, n)) && (forall n | n in p.plots :: NodeMapped(ids, n))
              && (forall b | b in p.blocks :: BlockMapped(ids, b))
              && (p.activeBlock.Some? ==> HasTarget(ids, BlockKind, p.activeBlock.value))
  {
    hide NodeMapped, BlockNodes;
    NodesHas(p);
    forall n | n in BlockNodes(p.blocks)
      ensures exists b :: b in p.blocks && (n == b.node || exists s :: s in b.stages && (n == s.node || n in s.tasks))
    {
      BlockNodesHas(p.blocks, n);
      var b :| b in p.blocks && (n == b.node || n in StageNodes(b.stages));
      StageNodesHas(b.stages, n);
    }
  }

  method RewritePlanning(p: Plan, ids: IdMap) returns (r: Result<Plan, ImportError>)
    ensures r == if PlanMapped(ids, p) then Success(PassPlan(Rename(ids), p)) else Failure(InvalidImport)
  {
    hide PlanMapped, NodeMapped, BlockMapped, PassAll, PassBlocks;
    MappedByLevel(ids, p);
    var volumesOk, volumes := RewriteLevel(p.volumes, ids);
    if !volumesOk {
      return Failure(InvalidImport);
    }
    var plotsOk, plots := RewriteLevel(p.plots, ids);
    if !plotsOk {
      return Failure(InvalidImport);
    }
    var blocksOk, blocks := RewriteBlocks(p.blocks, ids);
    if !blocksOk || (p.activeBlock.Some? && !HasTarget(ids, BlockKind, p.activeBlock.value)) {
      return Failure(InvalidImport);
    }
    var active := if p.activeBlock.Some? then Some(Target(ids, BlockKind, p.activeBlock.value)) else None;
    r := Success(p.(activeBlock := active, volumes := volumes, plots := plots, blocks := blocks));
  }

  method RehashLevel(ns: seq<Node>) returns (r: seq<Node>)
    ensures r == PassAll(Rehash, ns)
  {
    r := ns;
    for i := 0 to |ns|
      invariant |r| == |ns|
      invariant forall k | 0 <= k < i :: r[k] == RehashedNode(ns[k])
      invariant forall k | i <= k < |ns| :: r[k] == ns[k]
    {
      r := r[i := r[i].(hash := NodeDigest(PayloadOf(r[i])))];
    }
  }

  method RehashPlanningNodes(p: Plan) returns (r: Plan)
    ensures r == PassPlan(Rehash, p)
  {
    hide PassAll, RehashedNode;
    var volumes := RehashLevel(p.volumes);
    var plots := RehashLevel(p.plots);
    var blocks := p.blocks;
    for i := 0 to |p.blocks|
      invariant |blocks| == |p.blocks|
      invariant forall k | 0 <= k < i :: blocks[k] == PassBlock(Rehash, p.blocks[k])
      invariant forall k | i <= k < |p.blocks| :: blocks[k] == p.blocks[k]
    {
      var stages := blocks[i].stages;
      for j := 0 to |stages|
        invariant |stages| == |p.blocks[i].stages|
        invariant forall k | 0 <= k < j :: stages[k] == PassStage(Rehash, p.blocks[i].stages[k])
        invariant forall k | j <= k < |stages| :: stages[k] == p.blocks[i].stages[k]
      {
        var tasks := RehashLevel(stages[j].tasks);
        stages := stages[j := Stage(RehashedNode(stages[j].node), tasks)];
      }
      assert stages == PassStages(Rehash, p.blocks[i].stages);
      blocks := blocks[i := StoryBlock(RehashedNode(blocks[i].node), stages)];
    }
    assert blocks == PassBlocks(Rehash, p.blocks);
    r := p.(volumes := volumes, plots := plots, blocks := blocks);
  }

  /** Both passes, then the hash of the whole. */
  method ImportPlanning(p: Plan, ids: IdMap) returns (r: Result<Plan, ImportError>)
    ensures r == if PlanMapped(ids, p) then Success(Imported(ids, p)) else Failure(InvalidImport)
  {
    hide PassPlan, PlanMapped;
    var renamed := RewritePlanning(p, ids);
    if renamed.Failure? {
      return renamed;
    }
    var rehashed := RehashPlanningNodes(renamed.value);
    PassesCompose(ids, p);
    r := Success(Hashed(rehashed));
  }

  lemma PassAllCompose(ids: IdMap, ns: seq<Node>)
    ensures PassAll(Rehash, PassAll(Rename(ids), ns)) == PassAll(Import(ids), ns)
  {
    hide RehashedNode, RenamedNode;
  }

  lemma PassStageCompose(ids: IdMap, s: Stage)
    ensures PassStage(Rehash, PassStage(Rename(ids), s)) == PassStage(Import(ids), s)
  {
    hide RehashedNode, RenamedNode, PassAll;
    PassAllCompose(ids, s.tasks);
  }

  lemma PassBlockCompose(ids: IdMap, b: StoryBlock)
    ensures PassBlock(Rehash, PassBlock(Rename(ids), b)) == PassBlock(Import(ids), b)
  {
    hide RehashedNode, RenamedNode, PassStage;
    forall i | 0 <= i < |b.stages|
      ensures PassStages(Rehash, PassStages(Rename(ids), b.stages))[i] == PassStages(Import(ids), b.stages)[i]
    {
      PassStageCompose(ids, b.stages[i]);
    }
  }

  lemma PassesCompose(ids: IdMap, p: Plan)
    ensures PassPlan(Rehash, PassPlan(Rename(ids), p)) == PassPlan(Import(ids), p)
  {
    hide PassAll, PassBlock;
    PassAllCompose(ids, p.volumes);
    PassAllCompose(ids, p.plots);
    forall i | 0 <= i < |p.blocks|
      ensures PassBlocks(Rehash, PassBlocks(Rename(ids), p.blocks))[i] == PassBlocks(Import(ids), p.blocks)[i]
    {
      PassBlockCompose(ids, p.blocks[i]);
    }
    assert PassBlocks(Rehash, PassBlocks(Rename(ids), p.blocks)) == PassBlocks(Import(ids), p.blocks);
  }
}
