/** When each merge of a generated output succeeds, and the draft it then returns. */
module PlanningMerges {
  import opened Wrappers
  import opened Planning
  import opened PlanningAcceptance
  import opened Completion
  import opened PlanningExpansion
  import opened PlanningExpansionRuns

  // ----- finding -----

  lemma {:induction false} BlockFound(blocks: seq<BlockDraft>, i: nat)
    requires BlocksDistinct(blocks) && i < |blocks|
    ensures FirstBlock(blocks, Called(blocks[i].node)) == Some(blocks[i])
  {
    if i > 0 {
      assert Ref(blocks[0].node) != Ref(blocks[i].node);
      assert forall j, k | 0 <= j < k < |blocks[1..]| :: blocks[1..][j] == blocks[j + 1] && blocks[1..][k] == blocks[k + 1];
      BlockFound(blocks[1..], i - 1);
    }
  }

  lemma {:induction false} BlockNotFound(blocks: seq<BlockDraft>, ref: string)
    ensures FirstBlock(blocks, ref).None? <==> forall b | b in blocks :: Called(b.node) != ref
    ensures FirstBlock(blocks, ref).Some? ==> FirstBlock(blocks, ref).value in blocks && Called(FirstBlock(blocks, ref).value.node) == ref
  {
    if blocks != [] {
      BlockNotFound(blocks[1..], ref);
      assert blocks == [blocks[0]] + blocks[1..];
    }
  }

  lemma {:induction false} LastFound(blocks: seq<BlockDraft>, b: BlockDraft, ref: string)
    ensures FirstBlock(blocks + [b], ref) ==
              if FirstBlock(blocks, ref).Some? then FirstBlock(blocks, ref)
              else if Called(b.node) == ref then Some(b) else None
  {
    if blocks == [] {
      assert [] + [b] == [b] && [b][1..] == [];
    } else {
      assert (blocks + [b])[1..] == blocks[1..] + [b];
      LastFound(blocks[1..], b, ref);
    }
  }

  // ----- continuations -----

  /** Every stage of the block is active and has a task. */
  predicate Populated(b: BlockDraft) {
    b.stages != [] && forall s | s in b.stages :: s.node.lifecycle.Active? && s.tasks != []
  }

  /** A new block behind all others, under a reference of its own. */
  predicate NewLastBlock(before: DraftPlan, b: BlockDraft) {
    && b.node.identity.Fresh? && before.blocks != []
    && forall x | x in before.blocks :: x.node.order < b.node.order && Called(x.node) != Called(b.node)
  }

  predicate NewLastVolume(before: DraftPlan, v: DraftNode) {
    v.identity.Fresh? && v.lifecycle.Active? && before.volumes != [] && forall x | x in before.volumes :: x.order < v.order
  }

  /** The block a continuation makes active stands in the volume it names and is ready to be written. */
  predicate Continues(before: DraftPlan, delta: Delta, e: Expansion, b: BlockDraft) {
    && b.node.lifecycle.Active? && Populated(b) && b.node.body.DraftBlock?
    && match e.targetVolume
       case Some(v) => delta.volume.None? && b.node.body.volumeRef == v
       case None =>
         && e.mode.NextVolume? && delta.volume.Some? && NewLastVolume(before, delta.volume.value)
         && b.node.body.volumeRef == Called(delta.volume.value)
  }

  /** The output adds what is missing, a volume, a block, both or neither, and continues with a ready block. */
  predicate ContinuationFits(before: DraftPlan, delta: Delta, e: Expansion) {
    match e.targetBlock
    case None => delta.block.Some? && NewLastBlock(before, delta.block.value) && Continues(before, delta, e, delta.block.value)
    case Some(t) =>
      t != "" && delta.block.None? && exists b | b in before.blocks :: Called(b.node) == t && Continues(before, delta, e, b)
  }

  function Continued(before: DraftPlan, delta: Delta, e: Expansion): DraftPlan {
    before.(volumes := before.volumes + (if delta.volume.Some? then [delta.volume.value] else []),
            blocks := before.blocks + (if delta.block.Some? then [delta.block.value] else []),
            activeRef := if delta.block.Some? then Some(Called(delta.block.value.node)) else e.targetBlock)
  }

  lemma ContinuedWithNewBlock(before: DraftPlan, delta: Delta, e: Expansion, blank: Blankness)
    requires (e.mode.NextBlock? || e.mode.NextVolume?) && e.targetBlock.None? && delta.block.Some?
    requires delta.volume.Some? <==> e.targetVolume.None?
    ensures Validates(before, Continued(before, delta, e), Some(e), blank) <==> ContinuationFits(before, delta, e)
  {
    var b := delta.block.value;
    var after := Continued(before, delta, e);
    BlockNotFound(before.blocks, Called(b.node));
    LastFound(before.blocks, b, Called(b.node));
    assert after.blocks[..|before.blocks|] == before.blocks && after.volumes[..|before.volumes|] == before.volumes;
    assert delta.volume.None? ==> after.volumes == before.volumes;
  }

  lemma ContinuedWithOldBlock(before: DraftPlan, delta: Delta, e: Expansion, blank: Blankness)
    requires BlocksDistinct(before.blocks) && (e.mode.NextBlock? || e.mode.NextVolume?)
    requires e.targetBlock.Some? && e.targetBlock.value != "" && delta.block.None?
    requires delta.volume.Some? <==> e.targetVolume.None?
    ensures Validates(before, Continued(before, delta, e), Some(e), blank) <==> ContinuationFits(before, delta, e)
  {
    hide BlocksDistinct;
    var t := e.targetBlock.value;
    var after := Continued(before, delta, e);
    assert after.blocks == before.blocks && (delta.volume.None? ==> after.volumes == before.volumes);
    BlockNotFound(before.blocks, t);
    forall b | b in before.blocks && Called(b.node) == t
      ensures FirstBlock(before.blocks, t) == Some(b)
    {
      var i :| 0 <= i < |before.blocks| && before.blocks[i] == b;
      BlockFound(before.blocks, i);
    }
  }

  /** A continuation succeeds exactly when the output fits, and then appends it and makes its block the active one. */
  lemma ContinuationIff(before: DraftPlan, delta: Delta, e: Expansion, blank: Blankness)
    requires BlocksDistinct(before.blocks) && (e.mode.NextBlock? || e.mode.NextVolume?)
    ensures var r := MergeContinuation(before, delta, e, blank);
            && (r.Success? <==> ContinuationFits(before, delta, e))
            && (r.Success? ==> r.value == Continued(before, delta, e))
  {
    hide Validates, BlocksDistinct;
    if delta.volume.None? == e.targetVolume.Some? && delta.block.None? == e.targetBlock.Some? {
      if e.targetBlock.None? {
        ContinuedWithNewBlock(before, delta, e, blank);
      } else if e.targetBlock.value != "" {
        ContinuedWithOldBlock(before, delta, e, blank);
      } else {
        NothingActive(before, delta, e, blank);
      }
    }
  }

  lemma NothingActive(before: DraftPlan, delta: Delta, e: Expansion, blank: Blankness)
    requires e.targetBlock == Some("") && delta.block.None?
    ensures MergeContinuation(before, delta, e, blank).Failure?
  {
  }

  // ----- adjustments -----

  /** The part of a block found under a reference; should the reference occur twice, the last. */
  predicate Holds(parts: seq<Part>, ref: string, p: Part) {
    exists i | 0 <= i < |parts| :: parts[i] == p && PartRef(p) == ref && forall j | i < j < |parts| :: PartRef(parts[j]) != ref
  }

  lemma FrontHolds(parts: seq<Part>, ref: string, p: Part)
    requires parts != [] && PartRef(parts[|parts| - 1]) != ref
    ensures Holds(parts[..|parts| - 1], ref, p) <==> Holds(parts, ref, p)
  {
    var n := |parts| - 1;
    var front := parts[..n];
    hide PartRef;
    if Holds(front, ref, p) {
      var i :| 0 <= i < n && front[i] == p && PartRef(p) == ref && forall j | i < j < n :: PartRef(front[j]) != ref;
      forall j | i < j < |parts|
        ensures PartRef(parts[j]) != ref
      {
        assert j < n ==> front[j] == parts[j];
      }
      assert parts[i] == p;
    }
    if Holds(parts, ref, p) {
      var i :| 0 <= i <= n && parts[i] == p && PartRef(p) == ref && forall j | i < j <= n :: PartRef(parts[j]) != ref;
      assert front[i] == p;
    }
  }

  lemma LastHolds(parts: seq<Part>, ref: string, p: Part)
    requires parts != [] && PartRef(parts[|parts| - 1]) == ref
    ensures Holds(parts, ref, p) <==> parts[|parts| - 1] == p
  {
    hide PartRef;
    if Holds(parts, ref, p) {
      var i :| 0 <= i < |parts| && parts[i] == p && PartRef(p) == ref && forall j | i < j < |parts| :: PartRef(parts[j]) != ref;
      assert i == |parts| - 1;
    }
  }

  lemma {:induction false} PartMapIs(parts: seq<Part>, ref: string, p: Part)
    ensures (ref in PartMap(parts) && PartMap(parts)[ref] == p) <==> Holds(parts, ref, p)
  {
    if parts != [] {
      hide Holds, PartRef;
      var n := |parts| - 1;
      if PartRef(parts[n]) == ref {
        LastHolds(parts, ref, p);
      } else {
        PartMapIs(parts[..n], ref, p);
        FrontHolds(parts, ref, p);
      }
    }
  }

  /** The adjusted block takes the place of the active one, in the same volume and order, and keeps what is implemented. */
  ghost predicate Adjusts(original: BlockDraft, block: BlockDraft, e: Expansion) {
    && Called(block.node) == Called(original.node) && block.node.lifecycle.Active? && block.stages != []
    && block.node.body.DraftBlock? && original.node.body.DraftBlock?
    && block.node.body.volumeRef == original.node.body.volumeRef && block.node.order == original.node.order
    && forall ref | ref in e.protectedRefs ::
         exists p :: Holds(StageParts(original.stages), ref, p) && Holds(StageParts(block.stages), ref, p)
  }

  ghost predicate AdjustmentFits(before: DraftPlan, block: BlockDraft, e: Expansion) {
    && e.targetBlock.Some? && before.activeRef == e.targetBlock
    && exists b | b in before.blocks :: Called(b.node) == e.targetBlock.value && Adjusts(b, block, e)
  }

  /** The blocks with one in the place of the one called so. */
  function InPlace(blocks: seq<BlockDraft>, target: string, block: BlockDraft): (r: seq<BlockDraft>)
    ensures |r| == |blocks|
  {
    seq(|blocks|, i requires 0 <= i < |blocks| => if Called(blocks[i].node) == target then block else blocks[i])
  }

  lemma ReplacedInPlace(blocks: seq<BlockDraft>, target: string, block: BlockDraft)
    ensures ReplaceBlock(blocks, Some(target), block) == InPlace(blocks, target, block)
  {
  }

  lemma ProtectedHeld(original: BlockDraft, block: BlockDraft, refs: seq<string>)
    ensures var was, now := PartMap(StageParts(original.stages)), PartMap(StageParts(block.stages));
            (forall ref | ref in refs :: ref in was && ref in now && was[ref] == now[ref]) <==>
              (forall ref | ref in refs ::
                 exists p :: Holds(StageParts(original.stages), ref, p) && Holds(StageParts(block.stages), ref, p))
  {
    hide PartMap, Holds, StageParts;
    var was, now := PartMap(StageParts(original.stages)), PartMap(StageParts(block.stages));
    forall ref: string, p: Part | true
      ensures (ref in was && was[ref] == p) <==> Holds(StageParts(original.stages), ref, p)
      ensures (ref in now && now[ref] == p) <==> Holds(StageParts(block.stages), ref, p)
    {
      PartMapIs(StageParts(original.stages), ref, p);
      PartMapIs(StageParts(block.stages), ref, p);
    }
    forall ref | ref in refs && ref in was && ref in now && was[ref] == now[ref]
      ensures exists p :: Holds(StageParts(original.stages), ref, p) && Holds(StageParts(block.stages), ref, p)
    {
      assert Holds(StageParts(original.stages), ref, was[ref]);
    }
  }

  /** Where the active block of an adjusted draft stands. */
  lemma AdjustedActive(before: DraftPlan, block: BlockDraft, e: Expansion, ref: string)
    requires BlocksDistinct(before.blocks) && e.targetBlock.Some?
    requires exists b | b in before.blocks :: Called(b.node) == e.targetBlock.value
    ensures Called(block.node) == e.targetBlock.value == ref ==> FirstBlock(InPlace(before.blocks, e.targetBlock.value, block), ref) == Some(block)
    ensures ref == e.targetBlock.value && Called(block.node) != ref ==> FirstBlock(InPlace(before.blocks, e.targetBlock.value, block), ref).None?
  {
    var t := e.targetBlock.value;
    var after := InPlace(before.blocks, e.targetBlock.value, block);
    var b :| b in before.blocks && Called(b.node) == t;
    var i :| 0 <= i < |before.blocks| && before.blocks[i] == b;
    OthersDiffer(before.blocks, i);
    assert forall j | 0 <= j < |after| :: after[j] == if j == i then block else before.blocks[j];
    BlockNotFound(after, ref);
    if ref == t && Called(block.node) == t {
      assert after[i] in after;
      var found := FirstBlock(after, ref).value;
      var j :| 0 <= j < |after| && after[j] == found;
      assert j == i;
    } else if ref == t {
      forall x | x in after
        ensures Called(x.node) != ref
      {
        var j :| 0 <= j < |after| && after[j] == x;
      }
    }
  }

  lemma OthersDiffer(blocks: seq<BlockDraft>, i: nat)
    requires BlocksDistinct(blocks) && i < |blocks|
    ensures forall j | 0 <= j < |blocks| && j != i :: Called(blocks[j].node) != Called(blocks[i].node)
  {
    forall j | 0 <= j < |blocks| && j != i
      ensures Called(blocks[j].node) != Called(blocks[i].node)
    {
      assert if j < i then Called(blocks[j].node) != Called(blocks[i].node) else Called(blocks[i].node) != Called(blocks[j].node);
    }
  }

  /** An adjustment succeeds exactly when the block fits the place of the active target, and then replaces it alone. */
  lemma AdjustmentIff(before: DraftPlan, block: BlockDraft, e: Expansion, blank: Blankness)
    requires BlocksDistinct(before.blocks) && e.mode.ReviseBlock?
    ensures var r := MergeBlockAdjustment(before, block, e, blank);
            && (r.Success? <==> AdjustmentFits(before, block, e))
            && (r.Success? ==> r.value == before.(blocks := InPlace(before.blocks, e.targetBlock.value, block)))
  {
    hide BlocksDistinct, Holds, StageParts, PartMap, FirstBlock, ReplaceBlock;
    if e.targetBlock.Some? {
      var t := e.targetBlock.value;
      ReplacedInPlace(before.blocks, t, block);
      BlockNotFound(before.blocks, t);
      if before.activeRef.Some? {
        BlockNotFound(InPlace(before.blocks, t, block), before.activeRef.value);
      }
      if exists b | b in before.blocks :: Called(b.node) == t {
        TargetIsFirst(before.blocks, t);
        AdjustedActive(before, block, e, t);
        ProtectedHeld(FirstBlock(before.blocks, t).value, block, e.protectedRefs);
      }
    }
  }

  lemma TargetIsFirst(blocks: seq<BlockDraft>, t: string)
    requires BlocksDistinct(blocks)
    ensures forall b | b in blocks && Called(b.node) == t :: FirstBlock(blocks, t) == Some(b)
  {
    hide BlocksDistinct, FirstBlock, Called;
    forall b | b in blocks && Called(b.node) == t
      ensures FirstBlock(blocks, t) == Some(b)
    {
      var i :| 0 <= i < |blocks| && blocks[i] == b;
      BlockFound(blocks, i);
    }
  }

  // ----- completions -----

  predicate NodesDistinct(nodes: seq<DraftNode>) { forall i, j | 0 <= i < j < |nodes| :: Called(nodes[i]) != Called(nodes[j]) }

  lemma {:induction false} NodeFound(nodes: seq<DraftNode>, i: nat)
    requires NodesDistinct(nodes) && i < |nodes|
    ensures FirstNode(nodes, Called(nodes[i])) == Some(nodes[i])
  {
    if i > 0 {
      assert Called(nodes[0]) != Called(nodes[i]);
      assert forall j | 0 <= j < |nodes[1..]| :: nodes[1..][j] == nodes[j + 1];
      NodeFound(nodes[1..], i - 1);
    }
  }

  lemma {:induction false} NodeNotFound(nodes: seq<DraftNode>, ref: string)
    ensures FirstNode(nodes, ref).None? <==> forall n | n in nodes :: Called(n) != ref
    ensures FirstNode(nodes, ref).Some? ==> FirstNode(nodes, ref).value in nodes && Called(FirstNode(nodes, ref).value) == ref
  {
    if nodes != [] {
      var first := nodes[0];
      NodeNotFound(nodes[1..], ref);
      assert first in nodes && Called(first) == Ref(first);
      assert forall n | n in nodes[1..] :: n in nodes;
      forall n | n in nodes
        ensures n == first || n in nodes[1..]
      {
        var i :| 0 <= i < |nodes| && nodes[i] == n;
        assert i > 0 ==> nodes[1..][i - 1] == n;
      }
    }
  }

  lemma NodePut(nodes: seq<DraftNode>, i: nat, node: DraftNode)
    requires NodesDistinct(nodes) && i < |nodes| && Called(node) == Called(nodes[i])
    ensures ReplaceNode(nodes, Called(node), node) == nodes[i := node]
    ensures FirstNode(nodes[i := node], Called(node)) == Some(node)
  {
    assert forall j | 0 <= j < |nodes| && j != i :: Called(nodes[j]) != Called(nodes[i]);
    assert NodesDistinct(nodes[i := node]);
    NodeFound(nodes[i := node], i);
  }

  lemma BlockPut(blocks: seq<BlockDraft>, i: nat, block: BlockDraft)
    requires BlocksDistinct(blocks) && i < |blocks|
    requires Called(block.node) == Called(blocks[i].node) && block.node.order == blocks[i].node.order
    ensures ReplaceBlock(blocks, Some(Called(block.node)), block) == blocks[i := block]
    ensures FirstBlock(blocks[i := block], Called(block.node)) == Some(block)
  {
    assert forall j | 0 <= j < |blocks| && j != i :: Ref(blocks[j].node) != Ref(blocks[i].node);
    assert BlocksDistinct(blocks[i := block]);
    BlockFound(blocks[i := block], i);
  }

  /** The block is active, complete, and stands in the volume. */
  predicate Ready(b: BlockDraft, volume: string, blank: Blankness) {
    && b.node.lifecycle.Active? && b.stages != [] && BlockComplete(b, blank)
    && b.node.body.DraftBlock? && b.node.body.volumeRef == volume
  }

  /** A volume is sent exactly when one is to be filled and has gaps; it fills them and leaves none. */
  predicate VolumeFits(volume: DraftNode, delta: Delta, e: Expansion, blank: Blankness) {
    && (delta.volume.Some? <==> e.mode.FillNextVolume? && !VolumeComplete(volume, blank))
    && (delta.volume.Some? ==> VolumeFills(volume, delta.volume.value, blank) && VolumeComplete(delta.volume.value, blank))
  }

  /** An existing block is sent exactly when it has gaps; as it then stands it is ready and keeps what is implemented. */
  predicate OldBlockFits(old_: BlockDraft, delta: Delta, e: Expansion, volume: string, blank: Blankness) {
    var block := if delta.block.Some? then delta.block.value else old_;
    && (delta.block.Some? <==> !BlockComplete(old_, blank))
    && BlockFills(old_, block, blank) && Ready(block, volume, blank) && ProtectedKept(old_, block, e.protectedRefs)
  }

  predicate NewBlockFits(before: DraftPlan, b: BlockDraft, volume: string, blank: Blankness) {
    && b.node.identity.Fresh? && 0 < b.node.order && Ready(b, volume, blank)
    && forall x | x in before.blocks :: x.node.order < b.node.order && Called(x.node) != Called(b.node)
  }

  ghost predicate CompletionFits(before: DraftPlan, delta: Delta, e: Expansion, blank: Blankness) {
    && e.targetVolume.Some?
    && (exists v | v in before.volumes :: Called(v) == e.targetVolume.value && VolumeFits(v, delta, e, blank))
    && match e.targetBlock
       case None => delta.block.Some? && NewBlockFits(before, delta.block.value, e.targetVolume.value, blank)
       case Some(t) =>
         exists b | b in before.blocks :: Called(b.node) == t && OldBlockFits(b, delta, e, e.targetVolume.value, blank)
  }

  /** Only the volume and the block that were sent take the place of the old ones, or the block is appended; it is active. */
  ghost predicate Completed(before: DraftPlan, after: DraftPlan, delta: Delta, e: Expansion) {
    && after.plots == before.plots
    && |after.volumes| == |before.volumes|
    && (forall i | 0 <= i < |before.volumes| ::
          after.volumes[i] == if delta.volume.Some? && Some(Called(before.volumes[i])) == e.targetVolume
                              then delta.volume.value else before.volumes[i])
    && |after.blocks| == |before.blocks| + (if e.targetBlock.None? then 1 else 0)
    && (forall i | 0 <= i < |before.blocks| ::
          after.blocks[i] == if delta.block.Some? && Some(Called(before.blocks[i].node)) == e.targetBlock
                             then delta.block.value else before.blocks[i])
    && (e.targetBlock.None? ==>
          delta.block.Some? && after.blocks[|before.blocks|] == delta.block.value
          && after.activeRef == Some(Called(delta.block.value.node)))
    && (e.targetBlock.Some? ==> after.activeRef == e.targetBlock)
  }

  /** The volumes of a completion, with the target at its place. */
  lemma CompletedVolumes(volumes: seq<DraftNode>, i: nat, delta: Delta, e: Expansion, blank: Blankness)
    requires NodesDistinct(volumes) && i < |volumes| && e.targetVolume == Some(Called(volumes[i]))
    requires delta.volume.Some? ==> e.mode.FillNextVolume? && VolumeFills(volumes[i], delta.volume.value, blank)
    ensures var after := if delta.volume.Some? then ReplaceNode(volumes, Ref(volumes[i]), delta.volume.value) else volumes;
            var volume := if delta.volume.Some? then delta.volume.value else volumes[i];
            && after == volumes[i := volume] && FirstNode(after, e.targetVolume.value) == Some(volume)
            && (forall j | 0 <= j < |volumes| ::
                  if e.mode.FillNextVolume? && Ref(volumes[j]) == e.targetVolume.value
                  then VolumeFills(volumes[j], after[j], blank) else volumes[j] == after[j])
  {
    hide VolumeFills, FirstNode, ReplaceNode;
    NodeFound(volumes, i);
    assert forall j | 0 <= j < |volumes| && j != i :: Called(volumes[j]) != Called(volumes[i]);
    if delta.volume.Some? {
      VolumeFillsKeepRef(volumes[i], delta.volume.value, blank);
      NodePut(volumes, i, delta.volume.value);
    } else {
      VolumeFillsItself(volumes[i], blank);
      assert volumes[i := volumes[i]] == volumes;
    }
  }

  lemma VolumeFillsItself(v: DraftNode, blank: Blankness)
    ensures VolumeFills(v, v, blank)
  {
    hide Fills;
    FillsItself(FlatJson(v), "", blank);
  }

  lemma BlockFillsItself(b: BlockDraft, blank: Blankness)
    ensures BlockFills(b, b, blank)
  {
    hide Fills;
    FillsItself(BlockJson(b), "", blank);
  }

  /** The draft a completion is checked as. */
  function Proposed(before: DraftPlan, delta: Delta, e: Expansion, volume: DraftNode, block: Option<BlockDraft>): DraftPlan
    requires block.None? ==> delta.block.Some?
  {
    var volumes := if delta.volume.Some? then ReplaceNode(before.volumes, Ref(volume), delta.volume.value) else before.volumes;
    var kept := if block.Some? && delta.block.Some?
                then ReplaceBlock(before.blocks, Some(Ref(block.value.node)), delta.block.value) else before.blocks;
    before.(volumes := volumes, blocks := kept + (if block.None? then [delta.block.value] else []),
            activeRef := Some(Ref(if block.Some? then block.value.node else delta.block.value.node)))
  }

  lemma MergeIsProposed(before: DraftPlan, delta: Delta, e: Expansion, blank: Blankness)
    ensures var volume := if e.targetVolume.Some? then FirstNode(before.volumes, e.targetVolume.value) else None;
            var block := if e.targetBlock.Some? then FirstBlock(before.blocks, e.targetBlock.value) else None;
            MergeCompletion(before, delta, e, blank) ==
              if volume.None? || !CompletionOk(volume.value, block, delta, e, blank) then Failure(InvalidOutput)
              else Accepted(before, Proposed(before, delta, e, volume.value, block), e, blank)
  {
    hide Validates, FirstNode, FirstBlock, VolumeFills, BlockFills, VolumeComplete, BlockComplete, ReplaceNode, ReplaceBlock;
  }

  /** With an existing target block. */
  lemma OldBlockCompleted(before: DraftPlan, delta: Delta, e: Expansion, blank: Blankness, i: nat, k: nat)
    requires BlocksDistinct(before.blocks) && NodesDistinct(before.volumes) && FillMode(e.mode)
    requires i < |before.volumes| && e.targetVolume == Some(Called(before.volumes[i]))
    requires k < |before.blocks| && e.targetBlock == Some(Called(before.blocks[k].node))
    requires CompletionOk(before.volumes[i], Some(before.blocks[k]), delta, e, blank)
    ensures var volume, old_ := before.volumes[i], before.blocks[k];
            var after := Proposed(before, delta, e, volume, Some(old_));
            && (Validates(before, after, Some(e), blank) <==>
                  VolumeFits(volume, delta, e, blank) && OldBlockFits(old_, delta, e, e.targetVolume.value, blank))
            && Completed(before, after, delta, e)
  {
    hide VolumeFills, BlockFills, VolumeComplete, BlockComplete, ReplaceNode, ReplaceBlock, FirstNode, FirstBlock, ProtectedKept, Ref;
    var volume, old_ := before.volumes[i], before.blocks[k];
    var block := if delta.block.Some? then delta.block.value else old_;
    CompletedVolumes(before.volumes, i, delta, e, blank);
    BlockFillsItself(old_, blank);
    assert BlockFills(old_, block, blank);
    BlockFillsKeepRef(old_, block, blank);
    CalledIsRef(before.blocks, before.volumes);
    CalledIsRef([block], []);
    assert [block][0] == block;
    BlockPut(before.blocks, k, block);
    var after := Proposed(before, delta, e, volume, Some(old_));
    assert after.blocks == before.blocks[k := block] by {
      assert before.blocks[k := old_] == before.blocks;
      assert before.blocks + [] == before.blocks && before.blocks[k := block] + [] == before.blocks[k := block];
    }
    assert forall j | 0 <= j < |before.blocks| && j != k :: Called(before.blocks[j].node) != Called(old_.node);
    assert forall j | 0 <= j < |before.volumes| && j != i :: Called(before.volumes[j]) != Called(volume);
  }

  lemma CalledIsRef(blocks: seq<BlockDraft>, nodes: seq<DraftNode>)
    ensures forall j | 0 <= j < |blocks| :: Ref(blocks[j].node) == Called(blocks[j].node)
    ensures forall j | 0 <= j < |nodes| :: Ref(nodes[j]) == Called(nodes[j])
  {
  }

  /** With a new block. */
  lemma NewBlockCompleted(before: DraftPlan, delta: Delta, e: Expansion, blank: Blankness, i: nat)
    requires NodesDistinct(before.volumes) && FillMode(e.mode)
    requires i < |before.volumes| && e.targetVolume == Some(Called(before.volumes[i])) && e.targetBlock.None?
    requires CompletionOk(before.volumes[i], None, delta, e, blank)
    ensures delta.block.Some?
    ensures var volume := before.volumes[i];
            var after := Proposed(before, delta, e, volume, None);
            && (Validates(before, after, Some(e), blank) <==>
                  VolumeFits(volume, delta, e, blank) && NewBlockFits(before, delta.block.value, e.targetVolume.value, blank))
            && Completed(before, after, delta, e)
  {
    hide VolumeFills, BlockFills, VolumeComplete, BlockComplete, ReplaceNode, ReplaceBlock, FirstNode, FirstBlock, ProtectedKept, Ref;
    var volume := before.volumes[i];
    CompletedVolumes(before.volumes, i, delta, e, blank);
    var b := delta.block.value;
    var after := Proposed(before, delta, e, volume, None);
    CalledIsRef(before.blocks + [b], before.volumes);
    assert (before.blocks + [b])[|before.blocks|] == b;
    assert after.blocks == before.blocks + [b];
    BlockNotFound(before.blocks, Called(b.node));
    LastFound(before.blocks, b, Called(b.node));
    assert forall j | 0 <= j < |before.volumes| && j != i :: Called(before.volumes[j]) != Called(volume);
  }

  /** A target block that is not there makes the count of blocks wrong. */
  lemma LostBlockFails(before: DraftPlan, delta: Delta, e: Expansion, blank: Blankness, volume: DraftNode)
    requires FillMode(e.mode) && e.targetBlock.Some? && delta.block.Some?
    ensures !Validates(before, Proposed(before, delta, e, volume, None), Some(e), blank)
  {
    hide VolumeFills, BlockFills, VolumeComplete, BlockComplete, ReplaceNode, ReplaceBlock, FirstNode, FirstBlock, ProtectedKept, Ref;
  }

  /**
    A completion succeeds exactly when it sends what has gaps and nothing else, fills it, and
    leaves a ready block; the draft then has what was sent in its place and that block active.
  */
  lemma CompletionIff(before: DraftPlan, delta: Delta, e: Expansion, blank: Blankness)
    requires BlocksDistinct(before.blocks) && NodesDistinct(before.volumes) && FillMode(e.mode)
    ensures var r := MergeCompletion(before, delta, e, blank);
            && (r.Success? <==> CompletionFits(before, delta, e, blank))
            && (r.Success? ==> Completed(before, r.value, delta, e))
  {
    hide Validates, FirstNode, FirstBlock, VolumeFills, BlockFills, VolumeComplete, BlockComplete, Completed, Proposed, Ready;
    hide MergeCompletion, BlocksDistinct, NodesDistinct, ProtectedKept, Called, Ref;
    MergeIsProposed(before, delta, e, blank);
    if e.targetVolume.Some? {
      NodeNotFound(before.volumes, e.targetVolume.value);
      if FirstNode(before.volumes, e.targetVolume.value).Some? {
        var volume := FirstNode(before.volumes, e.targetVolume.value).value;
        var i :| 0 <= i < |before.volumes| && before.volumes[i] == volume;
        VolumeIsFirst(before.volumes, e.targetVolume.value);
        if e.targetBlock.None? {
          if CompletionOk(volume, None, delta, e, blank) {
            NewBlockCompleted(before, delta, e, blank, i);
          }
        } else {
          OldBlockCompletion(before, delta, e, blank, i);
        }
      }
    }
  }

  lemma OldBlockCompletion(before: DraftPlan, delta: Delta, e: Expansion, blank: Blankness, i: nat)
    requires BlocksDistinct(before.blocks) && NodesDistinct(before.volumes) && FillMode(e.mode)
    requires i < |before.volumes| && e.targetVolume == Some(Called(before.volumes[i])) && e.targetBlock.Some?
    ensures var volume := before.volumes[i];
            var block := FirstBlock(before.blocks, e.targetBlock.value);
            var ok := CompletionOk(volume, block, delta, e, blank);
            && (ok && Validates(before, Proposed(before, delta, e, volume, block), Some(e), blank) <==>
                  VolumeFits(volume, delta, e, blank)
                  && exists b | b in before.blocks :: Called(b.node) == e.targetBlock.value
                                                      && OldBlockFits(b, delta, e, e.targetVolume.value, blank))
            && (ok && Validates(before, Proposed(before, delta, e, volume, block), Some(e), blank) ==>
                  Completed(before, Proposed(before, delta, e, volume, block), delta, e))
  {
    hide Validates, FirstNode, FirstBlock, VolumeFills, BlockFills, VolumeComplete, BlockComplete, Completed, Proposed, Ready;
    hide BlocksDistinct, NodesDistinct, ProtectedKept, Called, Ref;
    var t := e.targetBlock.value;
    var volume := before.volumes[i];
    BlockNotFound(before.blocks, t);
    TargetIsFirst(before.blocks, t);
    if FirstBlock(before.blocks, t).Some? {
      var k :| 0 <= k < |before.blocks| && before.blocks[k] == FirstBlock(before.blocks, t).value;
      if CompletionOk(volume, Some(before.blocks[k]), delta, e, blank) {
        OldBlockCompleted(before, delta, e, blank, i, k);
      }
    } else if CompletionOk(volume, None, delta, e, blank) {
      LostBlockFails(before, delta, e, blank, volume);
    }
  }

  lemma VolumeIsFirst(nodes: seq<DraftNode>, ref: string)
    requires NodesDistinct(nodes)
    ensures forall n | n in nodes && Called(n) == ref :: FirstNode(nodes, ref) == Some(n)
  {
    hide NodesDistinct, FirstNode, Called;
    forall n | n in nodes && Called(n) == ref
      ensures FirstNode(nodes, ref) == Some(n)
    {
      var i :| 0 <= i < |nodes| && nodes[i] == n;
      NodeFound(nodes, i);
    }
  }

  // ----- the first block -----

  /** The earliest listed of the active volumes with the lowest order. */
  predicate Lowest(volumes: seq<DraftNode>, i: int) {
    && 0 <= i < |volumes| && volumes[i].lifecycle.Active?
    && (forall j | 0 <= j < |volumes| && volumes[j].lifecycle.Active? :: volumes[i].order <= volumes[j].order)
    && (forall j | 0 <= j < i && volumes[j].lifecycle.Active? :: volumes[i].order < volumes[j].order)
  }

  lemma LowestLater(volumes: seq<DraftNode>, i: int)
    requires volumes != [] && Lowest(volumes[1..], i)
    requires volumes[0].lifecycle.Active? ==> volumes[1..][i].order < volumes[0].order
    ensures Lowest(volumes, i + 1)
  {
    assert forall j | 1 <= j < |volumes| :: volumes[j] == volumes[1..][j - 1];
  }

  lemma LowestFirst(volumes: seq<DraftNode>, i: int)
    requires volumes != [] && volumes[0].lifecycle.Active?
    requires Lowest(volumes[1..], i) ==> volumes[0].order <= volumes[1..][i].order
    requires Lowest(volumes[1..], i) || forall j | 1 <= j < |volumes| :: !volumes[j].lifecycle.Active?
    ensures Lowest(volumes, 0)
  {
    assert forall j | 1 <= j < |volumes| :: volumes[j] == volumes[1..][j - 1];
  }

  lemma {:induction false} FirstVolumeIs(volumes: seq<DraftNode>)
    ensures FirstVolume(volumes).Some? ==> exists i :: Lowest(volumes, i) && volumes[i] == FirstVolume(volumes).value
    ensures FirstVolume(volumes).None? ==> forall i | 0 <= i < |volumes| :: !volumes[i].lifecycle.Active?
  {
    if volumes != [] {
      var rest := volumes[1..];
      FirstVolumeIs(rest);
      assert forall j | 1 <= j < |volumes| :: volumes[j] == rest[j - 1];
      if FirstVolume(rest).Some? {
        var i :| Lowest(rest, i) && rest[i] == FirstVolume(rest).value;
        if volumes[0].lifecycle.Active? && volumes[0].order <= rest[i].order {
          LowestFirst(volumes, i);
        } else {
          LowestLater(volumes, i);
          assert volumes[i + 1] == FirstVolume(volumes).value;
        }
      } else if volumes[0].lifecycle.Active? {
        LowestFirst(volumes, 0);
      }
    }
  }

  lemma OneLowest(volumes: seq<DraftNode>, i: int, j: int)
    requires Lowest(volumes, i) && Lowest(volumes, j)
    ensures i == j
  {
  }

  /** A draft's first block: the only one, active, populated, and in the lowest active volume. */
  ghost predicate InitialFits(before: DraftPlan, after: DraftPlan) {
    && before.blocks == [] && |after.blocks| == 1
    && var b := after.blocks[0];
       && after.activeRef == Some(Called(b.node)) && b.node.lifecycle.Active? && Populated(b) && b.node.body.DraftBlock?
       && exists i :: Lowest(after.volumes, i) && b.node.body.volumeRef == Called(after.volumes[i])
  }

  lemma LowestIsFirst(volumes: seq<DraftNode>)
    ensures forall i | Lowest(volumes, i) :: FirstVolume(volumes) == Some(volumes[i])
    ensures FirstVolume(volumes).Some? ==> exists i :: Lowest(volumes, i)
  {
    hide FirstVolume;
    FirstVolumeIs(volumes);
    forall i | Lowest(volumes, i)
      ensures FirstVolume(volumes) == Some(volumes[i])
    {
      var j :| Lowest(volumes, j) && volumes[j] == FirstVolume(volumes).value;
      OneLowest(volumes, i, j);
    }
  }

  /** An initial output is accepted exactly when it holds such a block and nothing was there before. */
  lemma InitialIff(before: DraftPlan, after: DraftPlan, e: Expansion, blank: Blankness)
    requires e.mode.Initial?
    ensures Validates(before, after, Some(e), blank) <==> InitialFits(before, after)
  {
    hide Lowest, FirstVolume;
    LowestIsFirst(after.volumes);
    LowestInside(after.volumes);
    if |after.blocks| == 1 && after.activeRef.Some? {
      OnlyBlock(after.blocks[0], after.activeRef.value);
      assert after.blocks == [after.blocks[0]];
      if FirstVolume(after.volumes).Some? {
        var i :| Lowest(after.volumes, i);
        assert Ref(after.volumes[i]) == Called(after.volumes[i]);
      }
    }
  }

  lemma OnlyBlock(b: BlockDraft, ref: string)
    ensures FirstBlock([b], ref) == if Called(b.node) == ref then Some(b) else None
  {
    assert [b][1..] == [];
  }

  lemma LowestInside(volumes: seq<DraftNode>)
    ensures forall i | Lowest(volumes, i) :: 0 <= i < |volumes|
  {
  }
}
