/** Generated continuations of a draft: what an accepted output may change, and what whole runs keep. */
module PlanningExpansion {
  import opened Wrappers
  import opened Planning
  import opened Completion

  datatype Mode = Initial | NextBlock | NextVolume | ReviseBlock | FillNextBlock | FillNextVolume

  datatype Expansion = Expansion(mode: Mode, targetVolume: Option<string>, targetBlock: Option<string>, protectedRefs: seq<string>)

  predicate FillMode(m: Mode) { m.FillNextBlock? || m.FillNextVolume? }

  // ----- drafts as JSON -----

  function TextsJson(xs: seq<string>): Json { Arr(seq(|xs|, i requires 0 <= i < |xs| => Str(xs[i]))) }

  /** Volumes, blocks, stages and tasks carry no character design. */
  function FieldJson(v: FieldValue): Json {
    match v
    case Text(t) => Str(t)
    case Texts(xs) => TextsJson(xs)
    case Design(_) => Null
    case OtherJson(j) => Raw(j)
  }

  function IdentityJson(d: DraftNode): map<string, Json> {
    match d.identity
    case Fresh(key) => map["id" := Null, "clientNodeKey" := Str(key), "revision" := Null, "contentHash" := Null]
    case Existing(id, revision, hash) =>
      map["id" := Str(id), "clientNodeKey" := Null, "revision" := Num(revision), "contentHash" := Digest(hash)]
  }

  function LifecycleJson(l: Lifecycle): Json { if l.Active? then Str("active") else Str("retired") }

  function RelationJson(b: DraftBody): map<string, Json> {
    if b.DraftBlock? then map["volumeRef" := Str(b.volumeRef), "plotRefs" := TextsJson(b.plotRefs)] else map[]
  }

  /** Identity, order, lifecycle and relations win over any own field of the same name. */
  function NodeJson(d: DraftNode): map<string, Json> {
    (map k | k in d.body.fields :: FieldJson(d.body.fields[k]))
      + IdentityJson(d) + RelationJson(d.body) + map["order" := Num(d.order), "lifecycle" := LifecycleJson(d.lifecycle)]
  }

  function FlatJson(d: DraftNode): Json { Obj(NodeJson(d)) }

  function StageJson(s: StageDraft): Json {
    Obj(NodeJson(s.node)["sceneTasks" := Arr(seq(|s.tasks|, i requires 0 <= i < |s.tasks| => FlatJson(s.tasks[i])))])
  }

  function BlockJson(b: BlockDraft): Json {
    Obj(NodeJson(b.node)["stages" := Arr(seq(|b.stages|, i requires 0 <= i < |b.stages| => StageJson(b.stages[i])))])
  }

  predicate BlockFills(before: BlockDraft, after: BlockDraft, blank: Blankness) {
    Fills(BlockJson(before), BlockJson(after), "", blank)
  }

  predicate VolumeFills(before: DraftNode, after: DraftNode, blank: Blankness) {
    Fills(FlatJson(before), FlatJson(after), "", blank)
  }

  // ----- completeness -----

  predicate Written(d: DraftNode, field: string, blank: Blankness) {
    field in d.body.fields && (d.body.fields[field].Text? ==> !blank(d.body.fields[field].text))
  }

  predicate VolumeComplete(d: DraftNode, blank: Blankness) {
    Written(d, "title", blank) && Written(d, "coreChange", blank) && Written(d, "mainPressure", blank)
  }

  predicate StageComplete(s: StageDraft, blank: Blankness) {
    && Written(s.node, "title", blank) && Written(s.node, "purpose", blank) && Written(s.node, "dramaticQuestion", blank)
    && (exists t | t in s.tasks :: t.lifecycle.Active?)
    && (forall t | t in s.tasks && t.lifecycle.Active? :: Written(t, "task", blank) && Written(t, "completionEvidence", blank))
  }

  predicate BlockComplete(b: BlockDraft, blank: Blankness) {
    && Written(b.node, "title", blank) && Written(b.node, "blockGoal", blank)
    && (exists s | s in b.stages :: s.node.lifecycle.Active?)
    && (forall s | s in b.stages && s.node.lifecycle.Active? :: StageComplete(s, blank))
  }

  // ----- looking up -----

  function FirstBlock(blocks: seq<BlockDraft>, ref: string): Option<BlockDraft> {
    if blocks == [] then None
    else if Ref(blocks[0].node) == ref then Some(blocks[0])
    else FirstBlock(blocks[1..], ref)
  }

  function FirstNode(nodes: seq<DraftNode>, ref: string): Option<DraftNode> {
    if nodes == [] then None
    else if Ref(nodes[0]) == ref then Some(nodes[0])
    else FirstNode(nodes[1..], ref)
  }

  /** The first active volume among those of the lowest order. */
  function FirstVolume(volumes: seq<DraftNode>): Option<DraftNode> {
    if volumes == [] then None
    else
      var rest := FirstVolume(volumes[1..]);
      if !volumes[0].lifecycle.Active? then rest
      else if rest.None? || volumes[0].order <= rest.value.order then Some(volumes[0])
      else rest
  }

  predicate AboveAll(order: nat, nodes: seq<DraftNode>) { forall n | n in nodes :: n.order < order }

  predicate AboveBlocks(order: nat, blocks: seq<BlockDraft>) { forall b | b in blocks :: b.node.order < order }

  /** A node of a block with everything below it. */
  datatype Part = BlockPart(block: BlockDraft) | StagePart(stage: StageDraft) | TaskPart(task: DraftNode)

  function PartRef(p: Part): string {
    match p
    case BlockPart(b) => Ref(b.node)
    case StagePart(s) => Ref(s.node)
    case TaskPart(t) => Ref(t)
  }

  function TaskParts(tasks: seq<DraftNode>): (r: seq<Part>)
    ensures |r| == |tasks|
  {
    seq(|tasks|, i requires 0 <= i < |tasks| => TaskPart(tasks[i]))
  }

  function StageParts(stages: seq<StageDraft>): seq<Part> {
    if stages == [] then [] else [StagePart(stages[0])] + TaskParts(stages[0].tasks) + StageParts(stages[1..])
  }

  function BlockParts(b: BlockDraft): seq<Part> { [BlockPart(b)] + StageParts(b.stages) }

  /** The dictionary of parts by reference; the last of equal references stays. */
  function PartMap(parts: seq<Part>): map<string, Part> {
    if parts == [] then map[]
    else PartMap(parts[..|parts| - 1])[PartRef(parts[|parts| - 1]) := parts[|parts| - 1]]
  }

  // ----- the checks -----

  /** Nodes already implemented stand in the completed block as they were. */
  predicate ProtectedKept(before: BlockDraft, after: BlockDraft, protectedRefs: seq<string>) {
    var parts := PartMap(BlockParts(after));
    forall p | p in BlockParts(before) && PartRef(p) in protectedRefs :: PartRef(p) in parts && parts[PartRef(p)] == p
  }

  predicate FillOk(before: DraftPlan, after: DraftPlan, e: Expansion, active: BlockDraft, blank: Blankness) {
    && e.targetVolume.Some?
    && FirstNode(after.volumes, e.targetVolume.value).Some?
    && after.plots == before.plots && |after.volumes| == |before.volumes|
    && active.node.body.DraftBlock? && active.node.body.volumeRef == e.targetVolume.value
    && BlockComplete(active, blank)
    && (e.mode.FillNextVolume? ==> VolumeComplete(FirstNode(after.volumes, e.targetVolume.value).value, blank))
    && (forall i | 0 <= i < |before.volumes| ::
          if e.mode.FillNextVolume? && Ref(before.volumes[i]) == e.targetVolume.value
          then VolumeFills(before.volumes[i], after.volumes[i], blank)
          else before.volumes[i] == after.volumes[i])
    && |after.blocks| == |before.blocks| + (if e.targetBlock.None? then 1 else 0)
    && (forall i | 0 <= i < |before.blocks| ::
          if Some(Ref(before.blocks[i].node)) == e.targetBlock
          then && BlockFills(before.blocks[i], after.blocks[i], blank)
               && Ref(active.node) == Ref(before.blocks[i].node)
               && ProtectedKept(before.blocks[i], after.blocks[i], e.protectedRefs)
          else before.blocks[i] == after.blocks[i])
    && (e.targetBlock.None? ==>
          && active == after.blocks[|after.blocks| - 1]
          && active.node.identity.Fresh? && 0 < active.node.order && AboveBlocks(active.node.order, before.blocks))
  }

  predicate ReviseOk(before: DraftPlan, after: DraftPlan, e: Expansion, active: BlockDraft) {
    && e.targetBlock.Some? && FirstBlock(before.blocks, e.targetBlock.value).Some?
    && var original := FirstBlock(before.blocks, e.targetBlock.value).value;
    && after.volumes == before.volumes && after.plots == before.plots && after.activeRef == before.activeRef
    && |after.blocks| == |before.blocks|
    && Ref(active.node) == Ref(original.node)
    && active.node.body.DraftBlock? && original.node.body.DraftBlock?
    && active.node.body.volumeRef == original.node.body.volumeRef
    && active.node.order == original.node.order
    && (forall i | 0 <= i < |before.blocks| && Ref(before.blocks[i].node) != e.targetBlock.value :: before.blocks[i] == after.blocks[i])
    && var was, now := PartMap(StageParts(original.stages)), PartMap(StageParts(active.stages));
       forall ref | ref in e.protectedRefs :: ref in was && ref in now && was[ref] == now[ref]
  }

  predicate InitialOk(before: DraftPlan, after: DraftPlan, active: BlockDraft) {
    && before.blocks == [] && |after.blocks| == 1
    && FirstVolume(after.volumes).Some?
    && active.node.body.DraftBlock? && active.node.body.volumeRef == Ref(FirstVolume(after.volumes).value)
  }

  predicate NextOk(before: DraftPlan, after: DraftPlan, e: Expansion, active: BlockDraft) {
    && after.plots == before.plots && before.blocks <= after.blocks && before.volumes <= after.volumes
    && active.node.body.DraftBlock?
    && (if e.targetVolume.Some? then
          after.volumes == before.volumes && active.node.body.volumeRef == e.targetVolume.value
        else
          && e.mode.NextVolume? && |after.volumes| == |before.volumes| + 1 && before.volumes != []
          && var v := after.volumes[|before.volumes|];
             v.identity.Fresh? && v.lifecycle.Active? && AboveAll(v.order, before.volumes) && active.node.body.volumeRef == Ref(v))
    && (if e.targetBlock.Some? then
          after.blocks == before.blocks && Ref(active.node) == e.targetBlock.value
        else
          && |after.blocks| == |before.blocks| + 1 && before.blocks != []
          && active == after.blocks[|before.blocks|]
          && active.node.identity.Fresh? && AboveBlocks(active.node.order, before.blocks))
  }

  /** The output contract of one generation step. */
  predicate Validates(before: DraftPlan, after: DraftPlan, expansion: Option<Expansion>, blank: Blankness) {
    if expansion.None? then before.activeRef == after.activeRef && before.blocks == after.blocks
    else
      var e := expansion.value;
      && after.activeRef.Some? && FirstBlock(after.blocks, after.activeRef.value).Some?
      && var active := FirstBlock(after.blocks, after.activeRef.value).value;
      && active.node.lifecycle.Active? && active.stages != []
      && if FillMode(e.mode) then FillOk(before, after, e, active, blank)
         else if e.mode.ReviseBlock? then ReviseOk(before, after, e, active)
         else
           && (forall s | s in active.stages :: s.node.lifecycle.Active? && s.tasks != [])
           && if e.mode.Initial? then InitialOk(before, after, active) else NextOk(before, after, e, active)
  }

  // ----- the merges -----

  datatype ExpansionError = InvalidOutput

  /** A generated delta as the output contract types it. */
  datatype Delta = Delta(volume: Option<DraftNode>, block: Option<BlockDraft>)

  function Accepted(before: DraftPlan, after: DraftPlan, e: Expansion, blank: Blankness): Result<DraftPlan, ExpansionError> {
    if Validates(before, after, Some(e), blank) then Success(after) else Failure(InvalidOutput)
  }

  function ReplaceBlock(blocks: seq<BlockDraft>, target: Option<string>, block: BlockDraft): (r: seq<BlockDraft>)
    ensures |r| == |blocks|
  {
    seq(|blocks|, i requires 0 <= i < |blocks| => if Some(Ref(blocks[i].node)) == target then block else blocks[i])
  }

  function ReplaceNode(nodes: seq<DraftNode>, target: string, node: DraftNode): (r: seq<DraftNode>)
    ensures |r| == |nodes|
  {
    seq(|nodes|, i requires 0 <= i < |nodes| => if Ref(nodes[i]) == target then node else nodes[i])
  }

  function MergeContinuation(before: DraftPlan, delta: Delta, e: Expansion, blank: Blankness): Result<DraftPlan, ExpansionError> {
    if delta.volume.None? != e.targetVolume.Some? || delta.block.None? != e.targetBlock.Some? then Failure(InvalidOutput)
    else
      Accepted(before,
               before.(volumes := before.volumes + (if delta.volume.Some? then [delta.volume.value] else []),
                       blocks := before.blocks + (if delta.block.Some? then [delta.block.value] else []),
                       activeRef := if e.targetBlock.Some? && e.targetBlock.value != "" then e.targetBlock
                                    else if delta.block.Some? then Some(Ref(delta.block.value.node)) else None),
               e, blank)
  }

  function MergeBlockAdjustment(before: DraftPlan, block: BlockDraft, e: Expansion, blank: Blankness): Result<DraftPlan, ExpansionError> {
    Accepted(before, before.(blocks := ReplaceBlock(before.blocks, e.targetBlock, block)), e, blank)
  }

  /** The delta holds exactly the nodes that still had gaps, each one filled. */
  predicate CompletionOk(volume: DraftNode, block: Option<BlockDraft>, delta: Delta, e: Expansion, blank: Blankness) {
    && (delta.volume.Some? <==> e.mode.FillNextVolume? && !VolumeComplete(volume, blank))
    && (delta.block.Some? <==> block.None? || !BlockComplete(block.value, blank))
    && (delta.volume.Some? ==> VolumeFills(volume, delta.volume.value, blank))
    && (block.Some? && delta.block.Some? ==> BlockFills(block.value, delta.block.value, blank))
  }

  function MergeCompletion(before: DraftPlan, delta: Delta, e: Expansion, blank: Blankness): Result<DraftPlan, ExpansionError> {
    if e.targetVolume.None? || FirstNode(before.volumes, e.targetVolume.value).None? then Failure(InvalidOutput)
    else
      var volume := FirstNode(before.volumes, e.targetVolume.value).value;
      var block := if e.targetBlock.Some? then FirstBlock(before.blocks, e.targetBlock.value) else None;
      if !CompletionOk(volume, block, delta, e, blank) then Failure(InvalidOutput)
      else
        var volumes := if delta.volume.Some? then ReplaceNode(before.volumes, Ref(volume), delta.volume.value) else before.volumes;
        var kept := if block.Some? && delta.block.Some?
                    then ReplaceBlock(before.blocks, Some(Ref(block.value.node)), delta.block.value) else before.blocks;
        Accepted(before,
                 before.(volumes := volumes, blocks := kept + (if block.None? then [delta.block.value] else []),
                         activeRef := Some(Ref(if block.Some? then block.value.node else delta.block.value.node))),
                 e, blank)
  }
}
