/** Whole runs of accepted continuation, fill and revision steps only ever append. */
module PlanningExpansionRuns {
  import opened Wrappers
  import opened Planning
  import opened Completion
  import opened PlanningExpansion

  function BlockRefs(blocks: seq<BlockDraft>): (r: seq<string>)
    ensures |r| == |blocks|
  {
    seq(|blocks|, i requires 0 <= i < |blocks| => Ref(blocks[i].node))
  }

  function NodeRefs(nodes: seq<DraftNode>): (r: seq<string>)
    ensures |r| == |nodes|
  {
    seq(|nodes|, i requires 0 <= i < |nodes| => Ref(nodes[i]))
  }

  predicate BlocksDistinct(blocks: seq<BlockDraft>) {
    forall i, j | 0 <= i < j < |blocks| :: Ref(blocks[i].node) != Ref(blocks[j].node) && blocks[i].node.order != blocks[j].node.order
  }

  /** The later sequence extends the earlier one at its end, by at most so many. */
  predicate Extends(earlier: seq<string>, later: seq<string>, most: nat) { earlier <= later && |later| <= |earlier| + most }

  // ----- filling keeps identities -----

  /** The JSON entries that tell which node it is and where it stands. */
  predicate Identifies(m: map<string, Json>, d: DraftNode) {
    && "id" in m && m["id"] == (if d.identity.Existing? then Str(d.identity.id) else Null)
    && "clientNodeKey" in m && m["clientNodeKey"] == (if d.identity.Fresh? then Str(d.identity.clientKey) else Null)
    && "order" in m && m["order"] == Num(d.order)
  }

  lemma IdentityInJson(d: DraftNode)
    ensures Identifies(NodeJson(d), d)
  {
    assert "id" != "clientNodeKey" && "order" !in IdentityJson(d);
    assert "id" !in RelationJson(d.body) && "clientNodeKey" !in RelationJson(d.body);
  }

  lemma FillsKeepNode(m: map<string, Json>, w: map<string, Json>, a: DraftNode, b: DraftNode, blank: Blankness)
    requires Fills(Obj(m), Obj(w), "", blank) && Identifies(m, a) && Identifies(w, b)
    ensures Ref(a) == Ref(b) && a.order == b.order
  {
    assert "" !in PROTECTED;
    assert "id" in PROTECTED && "clientNodeKey" in PROTECTED && "order" in PROTECTED;
    assert Fills(m["id"], w["id"], "id", blank);
    assert Fills(m["clientNodeKey"], w["clientNodeKey"], "clientNodeKey", blank);
    assert Fills(m["order"], w["order"], "order", blank);
  }

  lemma BlockFillsKeepRef(a: BlockDraft, b: BlockDraft, blank: Blankness)
    requires BlockFills(a, b, blank)
    ensures Ref(a.node) == Ref(b.node) && a.node.order == b.node.order
  {
    hide NodeJson, StageJson, Fills;
    IdentityInJson(a.node);
    IdentityInJson(b.node);
    assert "stages" != "id" && "stages" != "clientNodeKey" && "stages" != "order";
    FillsKeepNode(BlockJson(a).fields, BlockJson(b).fields, a.node, b.node, blank);
  }

  lemma VolumeFillsKeepRef(a: DraftNode, b: DraftNode, blank: Blankness)
    requires VolumeFills(a, b, blank)
    ensures Ref(a) == Ref(b)
  {
    hide NodeJson, Fills;
    IdentityInJson(a);
    IdentityInJson(b);
    FillsKeepNode(NodeJson(a), NodeJson(b), a, b, blank);
  }

  // ----- finding the active block -----

  lemma {:induction false} FirstBlockIs(blocks: seq<BlockDraft>, ref: string)
    ensures FirstBlock(blocks, ref).Some? ==>
              exists i | 0 <= i < |blocks| ::
                blocks[i] == FirstBlock(blocks, ref).value && Ref(blocks[i].node) == ref
                && forall j | 0 <= j < i :: Ref(blocks[j].node) != ref
  {
    if blocks != [] && Ref(blocks[0].node) != ref {
      FirstBlockIs(blocks[1..], ref);
      if FirstBlock(blocks[1..], ref).Some? {
        var i :| 0 <= i < |blocks| - 1 && blocks[1..][i] == FirstBlock(blocks[1..], ref).value && Ref(blocks[1..][i].node) == ref
                 && forall j | 0 <= j < i :: Ref(blocks[1..][j].node) != ref;
        assert blocks[i + 1] == FirstBlock(blocks, ref).value;
        forall j | 0 <= j < i + 1
          ensures Ref(blocks[j].node) != ref
        {
          assert j > 0 ==> blocks[j] == blocks[1..][j - 1];
        }
      }
    }
  }

  /** A new block above all orders that is also the first of its reference has a reference of its own. */
  lemma AppendedIsNew(before: seq<BlockDraft>, active: BlockDraft, ref: string)
    requires BlocksDistinct(before) && AboveBlocks(active.node.order, before)
    requires FirstBlock(before + [active], ref) == Some(active)
    ensures BlocksDistinct(before + [active])
  {
    hide Ref;
    var after := before + [active];
    FirstBlockIs(after, ref);
    var i :| 0 <= i < |after| && after[i] == active && Ref(after[i].node) == ref && forall j | 0 <= j < i :: Ref(after[j].node) != ref;
    forall j | 0 <= j < |before|
      ensures after[j].node.order < active.node.order
    {
      assert before[j] in before;
    }
    forall j | 0 <= j < |before|
      ensures Ref(before[j].node) != Ref(active.node) && before[j].node.order != active.node.order
    {
      assert after[j] == before[j] && before[j] in before;
    }
  }

  /** Replacing blocks one for one under the same references and orders keeps both distinct. */
  lemma ReplacedStayDistinct(before: seq<BlockDraft>, after: seq<BlockDraft>)
    requires BlocksDistinct(before) && |before| <= |after|
    requires forall i | 0 <= i < |before| :: Ref(after[i].node) == Ref(before[i].node) && after[i].node.order == before[i].node.order
    ensures BlocksDistinct(after[..|before|]) && BlockRefs(before) <= BlockRefs(after)
  {
    hide Ref;
  }

  // ----- one step -----

  /** Plots stay, block and volume references only grow at the end, blocks stay distinct. */
  predicate Grows(before: DraftPlan, after: DraftPlan) {
    && after.plots == before.plots
    && Extends(BlockRefs(before.blocks), BlockRefs(after.blocks), 1)
    && Extends(NodeRefs(before.volumes), NodeRefs(after.volumes), 1)
    && BlocksDistinct(after.blocks)
  }

  lemma PrefixRefs(before: DraftPlan, after: DraftPlan)
    requires before.blocks <= after.blocks && before.volumes <= after.volumes
    ensures BlockRefs(before.blocks) <= BlockRefs(after.blocks) && NodeRefs(before.volumes) <= NodeRefs(after.volumes)
  {
    hide Ref;
  }

  lemma NextGrows(before: DraftPlan, after: DraftPlan, e: Expansion, active: BlockDraft)
    requires BlocksDistinct(before.blocks) && NextOk(before, after, e, active)
    requires after.activeRef.Some? && FirstBlock(after.blocks, after.activeRef.value) == Some(active)
    ensures Grows(before, after)
  {
    hide BlocksDistinct, AboveBlocks, AboveAll, Ref, FirstBlock;
    PrefixRefs(before, after);
    if e.targetBlock.None? {
      assert after.blocks == before.blocks + [active];
      AppendedIsNew(before.blocks, active, after.activeRef.value);
    }
  }

  /** The revised block stands where the selected one stood. */
  lemma RevisedPlace(before: DraftPlan, after: DraftPlan, e: Expansion, active: BlockDraft, i: nat)
    requires BlocksDistinct(before.blocks) && ReviseOk(before, after, e, active)
    requires after.activeRef.Some? && FirstBlock(after.blocks, after.activeRef.value) == Some(active)
    requires i < |before.blocks|
    ensures if Ref(before.blocks[i].node) == e.targetBlock.value
            then after.blocks[i] == active && before.blocks[i] == FirstBlock(before.blocks, e.targetBlock.value).value
            else after.blocks[i] == before.blocks[i]
  {
    hide Ref, PartMap, StageParts;
    var target := e.targetBlock.value;
    FirstBlockIs(before.blocks, target);
    var p :| 0 <= p < |before.blocks| && before.blocks[p] == FirstBlock(before.blocks, target).value && Ref(before.blocks[p].node) == target;
    FirstBlockIs(after.blocks, after.activeRef.value);
    var k :| 0 <= k < |after.blocks| && after.blocks[k] == active;
    assert Ref(active.node) == target;
    assert Ref(before.blocks[k].node) == target;
    assert k == p;
  }

  lemma ReviseGrows(before: DraftPlan, after: DraftPlan, e: Expansion, active: BlockDraft)
    requires BlocksDistinct(before.blocks) && ReviseOk(before, after, e, active)
    requires after.activeRef.Some? && FirstBlock(after.blocks, after.activeRef.value) == Some(active)
    ensures Grows(before, after)
  {
    hide Ref, PartMap, StageParts, BlocksDistinct;
    forall i | 0 <= i < |before.blocks|
      ensures Ref(after.blocks[i].node) == Ref(before.blocks[i].node) && after.blocks[i].node.order == before.blocks[i].node.order
    {
      RevisedPlace(before, after, e, active, i);
    }
    ReplacedStayDistinct(before.blocks, after.blocks);
    assert after.blocks[..|before.blocks|] == after.blocks;
  }

  lemma FillKeepsPlaces(before: DraftPlan, after: DraftPlan, e: Expansion, active: BlockDraft, blank: Blankness)
    requires FillOk(before, after, e, active, blank)
    ensures forall i | 0 <= i < |before.blocks| ::
              Ref(after.blocks[i].node) == Ref(before.blocks[i].node) && after.blocks[i].node.order == before.blocks[i].node.order
    ensures forall i | 0 <= i < |before.volumes| :: Ref(after.volumes[i]) == Ref(before.volumes[i])
  {
    hide Ref, BlockComplete, VolumeComplete, BlockFills, VolumeFills, ProtectedKept, FirstNode, AboveBlocks;
    forall i | 0 <= i < |before.blocks|
      ensures Ref(after.blocks[i].node) == Ref(before.blocks[i].node) && after.blocks[i].node.order == before.blocks[i].node.order
    {
      if before.blocks[i] != after.blocks[i] {
        BlockFillsKeepRef(before.blocks[i], after.blocks[i], blank);
      }
    }
    forall i | 0 <= i < |before.volumes|
      ensures Ref(after.volumes[i]) == Ref(before.volumes[i])
    {
      if before.volumes[i] != after.volumes[i] {
        VolumeFillsKeepRef(before.volumes[i], after.volumes[i], blank);
      }
    }
  }

  lemma FillAppends(before: DraftPlan, after: DraftPlan, e: Expansion, active: BlockDraft, blank: Blankness)
    requires FillOk(before, after, e, active, blank) && e.targetBlock.None?
    ensures after.blocks == before.blocks + [active] && AboveBlocks(active.node.order, before.blocks)
  {
    hide Ref, BlockComplete, VolumeComplete, BlockFills, VolumeFills, ProtectedKept, FirstNode, AboveBlocks;
  }

  lemma FillGrows(before: DraftPlan, after: DraftPlan, e: Expansion, active: BlockDraft, blank: Blankness)
    requires BlocksDistinct(before.blocks) && FillOk(before, after, e, active, blank)
    requires after.activeRef.Some? && FirstBlock(after.blocks, after.activeRef.value) == Some(active)
    ensures Grows(before, after)
  {
    hide Ref, BlockComplete, VolumeComplete, BlockFills, VolumeFills, ProtectedKept, FirstNode, AboveBlocks;
    hide BlocksDistinct, FirstBlock;
    FillKeepsPlaces(before, after, e, active, blank);
    ReplacedStayDistinct(before.blocks, after.blocks);
    if e.targetBlock.None? {
      FillAppends(before, after, e, active, blank);
      AppendedIsNew(before.blocks, active, after.activeRef.value);
    } else {
      assert after.blocks[..|before.blocks|] == after.blocks;
    }
  }

  /** Every accepted step but the first generation grows its draft at the end. */
  lemma StepGrows(before: DraftPlan, after: DraftPlan, e: Expansion, blank: Blankness)
    requires BlocksDistinct(before.blocks) && !e.mode.Initial? && Validates(before, after, Some(e), blank)
    ensures Grows(before, after)
  {
    hide Grows, BlocksDistinct, FillOk, ReviseOk, NextOk, FirstBlock;
    var active := FirstBlock(after.blocks, after.activeRef.value).value;
    if FillMode(e.mode) {
      FillGrows(before, after, e, active, blank);
    } else if e.mode.ReviseBlock? {
      ReviseGrows(before, after, e, active);
    } else {
      NextGrows(before, after, e, active);
    }
  }

  // ----- protected nodes -----

  lemma {:induction false} PartMapIn(parts: seq<Part>, ref: string)
    requires ref in PartMap(parts)
    ensures PartMap(parts)[ref] in parts && PartRef(PartMap(parts)[ref]) == ref
  {
    var n := |parts| - 1;
    if PartRef(parts[n]) != ref {
      PartMapIn(parts[..n], ref);
    }
  }

  predicate PartsDistinct(parts: seq<Part>) { forall p, q | p in parts && q in parts && PartRef(p) == PartRef(q) :: p == q }

  /** Fill and revise steps leave every protected node, with all below it, where it was. */
  lemma ProtectedPartsEndure(before: DraftPlan, after: DraftPlan, e: Expansion, blank: Blankness, i: nat, p: Part)
    requires BlocksDistinct(before.blocks) && Validates(before, after, Some(e), blank)
    requires FillMode(e.mode) || e.mode.ReviseBlock?
    requires i < |before.blocks| && PartsDistinct(BlockParts(before.blocks[i]))
    requires p in BlockParts(before.blocks[i]) && PartRef(p) in e.protectedRefs
    ensures i < |after.blocks| && p in BlockParts(after.blocks[i])
  {
    hide BlocksDistinct, FirstBlock, FirstNode, BlockComplete, VolumeComplete, BlockFills, VolumeFills, AboveBlocks;
    hide PartRef, StageParts, Ref;
    var active := FirstBlock(after.blocks, after.activeRef.value).value;
    var was := before.blocks[i];
    if e.mode.ReviseBlock? {
      RevisedPlace(before, after, e, active, i);
      if Ref(was.node) == e.targetBlock.value {
        PartMapIn(StageParts(was.stages), PartRef(p));
        PartMapIn(StageParts(active.stages), PartRef(p));
      }
    } else if before.blocks[i] != after.blocks[i] {
      PartMapIn(BlockParts(after.blocks[i]), PartRef(p));
    }
  }

  // ----- the merges -----

  /** Whatever a merge returns after the first generation grew the draft at its end. */
  lemma MergesGrow(before: DraftPlan, delta: Delta, block: BlockDraft, e: Expansion, blank: Blankness)
    requires BlocksDistinct(before.blocks) && !e.mode.Initial?
    ensures var r := MergeContinuation(before, delta, e, blank); r.Success? ==> Grows(before, r.value)
    ensures var r := MergeBlockAdjustment(before, block, e, blank); r.Success? ==> Grows(before, r.value)
    ensures var r := MergeCompletion(before, delta, e, blank); r.Success? ==> Grows(before, r.value)
  {
    hide Validates, FirstNode, FirstBlock, CompletionOk, Grows, BlocksDistinct;
    forall r | r in [MergeContinuation(before, delta, e, blank), MergeBlockAdjustment(before, block, e, blank),
                     MergeCompletion(before, delta, e, blank)] && r.Success?
      ensures Grows(before, r.value)
    {
      StepGrows(before, r.value, e, blank);
    }
  }

  /** Completion leaves complete blocks exactly as they were. */
  lemma CompletionKeepsComplete(before: DraftPlan, delta: Delta, e: Expansion, blank: Blankness, i: nat)
    requires BlocksDistinct(before.blocks) && i < |before.blocks| && BlockComplete(before.blocks[i], blank)
    requires MergeCompletion(before, delta, e, blank).Success?
    ensures i < |MergeCompletion(before, delta, e, blank).value.blocks|
    ensures MergeCompletion(before, delta, e, blank).value.blocks[i] == before.blocks[i]
  {
    hide Validates, FirstNode, Ref, BlockComplete, VolumeComplete, VolumeFills, BlockFills;
    if e.targetBlock.Some? {
      FirstBlockIs(before.blocks, e.targetBlock.value);
    }
  }

  // ----- runs -----

  predicate AcceptedRun(plans: seq<DraftPlan>, steps: seq<Expansion>, blank: Blankness) {
    && |plans| == |steps| + 1
    && forall i | 0 <= i < |steps| :: !steps[i].mode.Initial? && Validates(plans[i], plans[i + 1], Some(steps[i]), blank)
  }

  lemma {:induction false} RunDistinct(plans: seq<DraftPlan>, steps: seq<Expansion>, blank: Blankness, n: nat)
    requires AcceptedRun(plans, steps, blank) && BlocksDistinct(plans[0].blocks) && n < |plans|
    ensures BlocksDistinct(plans[n].blocks)
  {
    hide Validates, BlocksDistinct, BlockRefs, NodeRefs;
    if n > 0 {
      RunDistinct(plans, steps, blank, n - 1);
      StepGrows(plans[n - 1], plans[n], steps[n - 1], blank);
    }
  }

  /** Over any accepted run: plots stay, references are only appended, at most one a step, and blocks stay distinct. */
  lemma {:induction false} RunOnlyAppends(plans: seq<DraftPlan>, steps: seq<Expansion>, blank: Blankness, i: nat, j: nat)
    requires AcceptedRun(plans, steps, blank) && BlocksDistinct(plans[0].blocks) && i <= j < |plans|
    ensures plans[j].plots == plans[i].plots
    ensures Extends(BlockRefs(plans[i].blocks), BlockRefs(plans[j].blocks), j - i)
    ensures Extends(NodeRefs(plans[i].volumes), NodeRefs(plans[j].volumes), j - i)
    ensures BlocksDistinct(plans[j].blocks)
    decreases j
  {
    hide Validates, BlocksDistinct, BlockRefs, NodeRefs;
    RunDistinct(plans, steps, blank, j);
    if i < j {
      RunOnlyAppends(plans, steps, blank, i, j - 1);
      RunDistinct(plans, steps, blank, j - 1);
      StepGrows(plans[j - 1], plans[j], steps[j - 1], blank);
    }
  }
}
