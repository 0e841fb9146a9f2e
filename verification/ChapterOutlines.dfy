/** Chapter outlines pin nodes of one aggregate; patches and outlines do not cross. */
module ChapterOutlines {
  import opened Wrappers
  import opened Planning
  import opened PlanningClosed
  import opened PlanningFixedPoint
  import opened PlanningPatches

  datatype NodeRef = NodeRef(id: string, revision: nat, hash: NodeHash)

  datatype Outline = Outline(volume: NodeRef, block: NodeRef, stages: seq<NodeRef>, tasks: seq<NodeRef>)

  datatype OutlineError = UnknownRef | StaleRef

  function ResolveRef(ref: NodeRef, nodes: map<string, Node>): Result<Node, OutlineError> {
    if ref.id !in nodes then Failure(UnknownRef)
    else if nodes[ref.id].revision != ref.revision || nodes[ref.id].hash != ref.hash then Failure(StaleRef)
    else Success(nodes[ref.id])
  }

  predicate Resolves(p: Plan, k: Kind, ref: NodeRef) { ResolveRef(ref, Level(p, k)).Success? }

  function Referenced(p: Plan, k: Kind, ref: NodeRef): Node
    requires Resolves(p, k, ref)
  {
    ResolveRef(ref, Level(p, k)).value
  }

  predicate RefsDistinct(refs: seq<NodeRef>) { forall i, j | 0 <= i < j < |refs| :: refs[i].id != refs[j].id }

  predicate ActiveRef(p: Plan, k: Kind, ref: NodeRef) { Resolves(p, k, ref) && Referenced(p, k, ref).lifecycle.Active? }

  predicate StageOwned(p: Plan, o: Outline, ref: NodeRef) {
    ActiveRef(p, StageKind, ref) && var n := Referenced(p, StageKind, ref); n.body.StageBody? && n.body.blockId == o.block.id
  }

  predicate TaskOwned(p: Plan, o: Outline, ref: NodeRef) {
    && ActiveRef(p, TaskKind, ref)
    && var n := Referenced(p, TaskKind, ref);
       n.body.TaskBody? && exists s | s in o.stages :: s.id == n.body.stageId
  }

  /** The reference, lifecycle, active-block and ownership checks of an outline against an aggregate. */
  predicate SliceOk(o: Outline, p: Plan) {
    && ActiveRef(p, VolumeKind, o.volume)
    && ActiveRef(p, BlockKind, o.block)
    && RefsDistinct(o.stages) && RefsDistinct(o.tasks)
    && p.activeBlock == Some(o.block.id)
    && (var b := Referenced(p, BlockKind, o.block); b.body.BlockBody? && b.body.volumeId == o.volume.id)
    && (forall ref | ref in o.stages :: StageOwned(p, o, ref))
    && (forall ref | ref in o.tasks :: TaskOwned(p, o, ref))
  }

  // ----- what the checks ask for -----

  /** The reference names this node at its revision and hash, and the node is active. */
  predicate Pins(ref: NodeRef, n: Node) { ref == NodeRef(n.id, n.revision, n.hash) && n.lifecycle.Active? }

  predicate VolumeStands(o: Outline, p: Plan) { exists v | v in p.volumes :: Pins(o.volume, v) }

  /** The block is the active one and belongs to the volume. */
  predicate BlockStands(o: Outline, p: Plan) {
    exists b | b in p.blocks ::
      && Pins(o.block, b.node) && p.activeBlock == Some(b.node.id)
      && b.node.body.BlockBody? && b.node.body.volumeId == o.volume.id
  }

  predicate StageStands(o: Outline, p: Plan, ref: NodeRef) {
    exists b, s | b in p.blocks && s in b.stages ::
      Pins(ref, s.node) && s.node.body.StageBody? && s.node.body.blockId == o.block.id
  }

  predicate TaskStands(o: Outline, p: Plan, ref: NodeRef) {
    exists b, s, t | b in p.blocks && s in b.stages && t in s.tasks ::
      Pins(ref, t) && t.body.TaskBody? && exists r | r in o.stages :: r.id == t.body.stageId
  }

  lemma NodeOfKind(p: Plan, n: Node)
    requires Shaped(p) && n in Nodes(p)
    ensures n.body.VolumeBody? ==> n in p.volumes
    ensures n.body.BlockBody? ==> exists b | b in p.blocks :: b.node == n
    ensures n.body.StageBody? ==> exists b, s | b in p.blocks && s in b.stages :: s.node == n
    ensures n.body.TaskBody? ==> exists b, s | b in p.blocks && s in b.stages :: n in s.tasks
  {
    hide BlockNodes, StageNodes;
    if n in BlockNodes(p.blocks) {
      BlockNodesHas(p.blocks, n);
      var b :| b in p.blocks && (n == b.node || n in StageNodes(b.stages));
      StageNodesHas(b.stages, n);
    }
  }

  lemma ActiveRefIs(p: Plan, k: Kind, ref: NodeRef)
    requires IdsOk(Nodes(p))
    ensures ActiveRef(p, k, ref) <==> exists n | n in Nodes(p) :: KindOf(n.body) == k && Pins(ref, n)
    ensures forall n | n in Nodes(p) && KindOf(n.body) == k && Pins(ref, n) :: ActiveRef(p, k, ref) && Referenced(p, k, ref) == n
  {
    hide Nodes, IdsOk, Level;
    if ref.id in Level(p, k) {
      LevelIs(p, k, ref.id);
    }
    forall n | n in Nodes(p) && KindOf(n.body) == k && Pins(ref, n)
      ensures ActiveRef(p, k, ref) && Referenced(p, k, ref) == n
    {
      LevelHas(p, k, n);
    }
  }

  lemma StageOwnedIs(p: Plan, o: Outline, ref: NodeRef)
    requires IdsOk(Nodes(p)) && Shaped(p)
    ensures StageOwned(p, o, ref) <==> StageStands(o, p, ref)
  {
    hide Nodes, IdsOk, Resolves, Pins, Shaped;
    ActiveRefIs(p, StageKind, ref);
    NodesHas(p);
    if StageOwned(p, o, ref) {
      var n :| n in Nodes(p) && KindOf(n.body) == StageKind && Pins(ref, n);
      NodeOfKind(p, n);
    }
  }

  lemma TaskOwnedIs(p: Plan, o: Outline, ref: NodeRef)
    requires IdsOk(Nodes(p)) && Shaped(p)
    ensures TaskOwned(p, o, ref) <==> TaskStands(o, p, ref)
  {
    hide Nodes, IdsOk, Resolves, Pins, Shaped;
    ActiveRefIs(p, TaskKind, ref);
    NodesHas(p);
    if TaskOwned(p, o, ref) {
      var n :| n in Nodes(p) && KindOf(n.body) == TaskKind && Pins(ref, n);
      NodeOfKind(p, n);
    }
  }

  lemma VolumeAndBlock(p: Plan, o: Outline)
    requires IdsOk(Nodes(p)) && Shaped(p)
    ensures ActiveRef(p, VolumeKind, o.volume) <==> VolumeStands(o, p)
    ensures BlockStands(o, p) <==>
              && ActiveRef(p, BlockKind, o.block) && p.activeBlock == Some(o.block.id)
              && var b := Referenced(p, BlockKind, o.block); b.body.BlockBody? && b.body.volumeId == o.volume.id
  {
    hide Nodes, IdsOk, Resolves;
    ActiveRefIs(p, VolumeKind, o.volume);
    ActiveRefIs(p, BlockKind, o.block);
    NodesHas(p);
    forall n | n in Nodes(p)
      ensures n.body.VolumeBody? ==> n in p.volumes
      ensures n.body.BlockBody? ==> exists b | b in p.blocks :: b.node == n
    {
      NodeOfKind(p, n);
    }
  }

  /** An outline passes iff what it refers to is in the aggregate: active, unchanged, of its kind and under its owner. */
  lemma SliceOkIff(o: Outline, p: Plan)
    requires IdsOk(Nodes(p)) && Shaped(p)
    ensures SliceOk(o, p) <==>
              && VolumeStands(o, p) && BlockStands(o, p)
              && (forall ref | ref in o.stages :: StageStands(o, p, ref))
              && (forall ref | ref in o.tasks :: TaskStands(o, p, ref))
              && (forall i, j | 0 <= i < j < |o.stages| :: o.stages[i].id != o.stages[j].id)
              && (forall i, j | 0 <= i < j < |o.tasks| :: o.tasks[i].id != o.tasks[j].id)
  {
    hide Nodes, IdsOk, Shaped, VolumeStands, BlockStands, StageStands, TaskStands, StageOwned, TaskOwned, Resolves;
    VolumeAndBlock(p, o);
    forall ref
      ensures StageOwned(p, o, ref) <==> StageStands(o, p, ref)
      ensures TaskOwned(p, o, ref) <==> TaskStands(o, p, ref)
    {
      StageOwnedIs(p, o, ref);
      TaskOwnedIs(p, o, ref);
    }
  }

  // ----- protected nodes -----

  predicate Mentions(o: Outline, id: string) {
    || id == o.volume.id || id == o.block.id
    || (exists r | r in o.stages :: r.id == id) || (exists r | r in o.tasks :: r.id == id)
  }

  method ProtectedOutlineNodeIds(outlines: seq<Outline>) returns (ids: set<string>)
    ensures forall id :: id in ids <==> exists o | o in outlines :: Mentions(o, id)
  {
    ids := {};
    for i := 0 to |outlines|
      invariant forall id :: id in ids <==> exists k | 0 <= k < i :: Mentions(outlines[k], id)
    {
      var o := outlines[i];
      var added := {o.volume.id, o.block.id} + (set r | r in o.stages :: r.id) + (set r | r in o.tasks :: r.id);
      MentionedSet(o, added);
      hide Mentions;
      ids := ids + added;
    }
  }

  lemma MentionedSet(o: Outline, added: set<string>)
    requires added == {o.volume.id, o.block.id} + (set r | r in o.stages :: r.id) + (set r | r in o.tasks :: r.id)
    ensures forall id :: id in added <==> Mentions(o, id)
  {
  }

  ghost predicate Protects(implemented: set<string>, outlines: seq<Outline>) {
    forall o, id | o in outlines && Mentions(o, id) :: id in implemented
  }

  // ----- patches keep outlines -----

  /** A reference to a protected node finds the identical node after patching. */
  lemma ReferenceSurvives(p: Plan, patches: seq<Patch>, implemented: set<string>, fits: FieldRule, k: Kind, ref: NodeRef)
    requires Canonical(p) && ApplyPatches(p, patches, implemented, fits).Success?
    requires Resolves(p, k, ref) && ref.id in implemented
    ensures var r := ApplyPatches(p, patches, implemented, fits).value;
            Resolves(r, k, ref) && Referenced(r, k, ref) == Referenced(p, k, ref)
  {
    hide Nodes, Canonical, ApplyPatches, Level, Targets, SameRelations;
    var r := ApplyPatches(p, patches, implemented, fits).value;
    LevelIs(p, k, ref.id);
    var n := Level(p, k)[ref.id];
    var i :| 0 <= i < |Nodes(p)| && Nodes(p)[i] == n;
    PatchesAreLocal(p, patches, implemented, fits, i);
    PatchedIsCanonical(p, patches, implemented, fits);
    CanonicalIds(r);
    assert n in Nodes(r);
    LevelHas(r, k, n);
  }

  /** Protected or not, a reference survives exactly when the patches left the node's fields as they were. */
  lemma ReferenceSurvivesIff(p: Plan, patches: seq<Patch>, implemented: set<string>, fits: FieldRule, k: Kind, ref: NodeRef, i: nat)
    requires Canonical(p) && ApplyPatches(p, patches, implemented, fits).Success?
    requires Resolves(p, k, ref) && i < |Nodes(p)| && Nodes(p)[i] == Referenced(p, k, ref)
    ensures var r := ApplyPatches(p, patches, implemented, fits).value;
            && |Nodes(r)| == |Nodes(p)|
            && (Resolves(r, k, ref) <==> Nodes(r)[i].body.fields == Nodes(p)[i].body.fields)
  {
    hide Nodes, Canonical, ApplyPatches, Level, Targets;
    var r := ApplyPatches(p, patches, implemented, fits).value;
    LevelIs(p, k, ref.id);
    PatchesAreLocal(p, patches, implemented, fits, i);
    PatchedIsCanonical(p, patches, implemented, fits);
    CanonicalIds(r);
    LevelHas(r, k, Nodes(r)[i]);
  }

  /** Every outline whose nodes are protected still passes its checks on the patched aggregate. */
  lemma OutlinesSurvivePatches(p: Plan, patches: seq<Patch>, implemented: set<string>, fits: FieldRule, outlines: seq<Outline>)
    requires Canonical(p) && ApplyPatches(p, patches, implemented, fits).Success?
    requires Protects(implemented, outlines)
    ensures forall o | o in outlines && SliceOk(o, p) :: SliceOk(o, ApplyPatches(p, patches, implemented, fits).value)
  {
    hide SliceOk;
    forall o | o in outlines && SliceOk(o, p)
      ensures SliceOk(o, ApplyPatches(p, patches, implemented, fits).value)
    {
      OutlineSurvives(p, patches, implemented, fits, o);
    }
  }

  lemma OutlineSurvives(p: Plan, patches: seq<Patch>, implemented: set<string>, fits: FieldRule, o: Outline)
    requires Canonical(p) && ApplyPatches(p, patches, implemented, fits).Success?
    requires SliceOk(o, p) && forall id | Mentions(o, id) :: id in implemented
    ensures SliceOk(o, ApplyPatches(p, patches, implemented, fits).value)
  {
    hide Nodes, Canonical, ApplyPatches, Level, Resolves, Referenced;
    var r := ApplyPatches(p, patches, implemented, fits).value;
    assert Mentions(o, o.volume.id) && Mentions(o, o.block.id);
    ReferenceSurvives(p, patches, implemented, fits, VolumeKind, o.volume);
    ReferenceSurvives(p, patches, implemented, fits, BlockKind, o.block);
    forall ref | ref in o.stages
      ensures StageOwned(r, o, ref)
    {
      assert StageOwned(p, o, ref) && Mentions(o, ref.id);
      ReferenceSurvives(p, patches, implemented, fits, StageKind, ref);
    }
    forall ref | ref in o.tasks
      ensures TaskOwned(r, o, ref)
    {
      assert TaskOwned(p, o, ref) && Mentions(o, ref.id);
      ReferenceSurvives(p, patches, implemented, fits, TaskKind, ref);
    }
    PatchesKeepActiveBlock(p, patches, implemented, fits);
  }

  lemma PatchesKeepActiveBlock(p: Plan, patches: seq<Patch>, implemented: set<string>, fits: FieldRule)
    requires Canonical(p) && ApplyPatches(p, patches, implemented, fits).Success?
    ensures ApplyPatches(p, patches, implemented, fits).value.activeBlock == p.activeBlock
  {
    hide Nodes, Canonical, ApplyPatches, ReviseAll, ReviseBlocks, EditsFit, Refusal, Patched;
    PatchesAccepted(p, patches, implemented, fits);
  }
}
