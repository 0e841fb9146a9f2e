/** The check before confirmation, as the loops and look-ups that make it. */
module PlanningConfirmation {
  import opened Wrappers
  import opened Planning
  import opened PlanningClosed
  import opened PlanningFixedPoint
  import opened PlanningRuns

  // ----- character designs -----

  predicate Speaks(c: CharacterNode, blank: string -> bool) { exists text | text in c.dimensions :: !blank(text) }

  predicate DesignReady(n: Node, blank: string -> bool) {
    n.lifecycle.Active? && "characterDesign" in n.body.fields && n.body.fields["characterDesign"].Design? ==>
      var nodes := n.body.fields["characterDesign"].design.nodes;
      nodes != [] && forall c | c in nodes :: Speaks(c, blank)
  }

  method NodesSpeak(nodes: seq<CharacterNode>, blank: string -> bool) returns (ok: bool)
    ensures ok <==> forall c | c in nodes :: Speaks(c, blank)
  {
    for i := 0 to |nodes|
      invariant forall k | 0 <= k < i :: Speaks(nodes[k], blank)
    {
      var spoken := false;
      var texts := nodes[i].dimensions;
      for j := 0 to |texts|
        invariant spoken <==> exists k | 0 <= k < j :: !blank(texts[k])
      {
        spoken := spoken || !blank(texts[j]);
      }
      if !spoken {
        assert nodes[i] in nodes && !Speaks(nodes[i], blank);
        return false;
      }
      assert Speaks(nodes[i], blank);
    }
    ok := true;
  }

  method DesignsAreReady(p: Plan, blank: string -> bool) returns (ok: bool)
    ensures ok <==> DesignsReady(p, blank)
  {
    hide Speaks;
    DesignsByPlot(p, blank);
    for i := 0 to |p.plots|
      invariant forall k | 0 <= k < i :: DesignReady(p.plots[k], blank)
    {
      var n := p.plots[i];
      assert n in p.plots;
      if n.lifecycle.Active? && "characterDesign" in n.body.fields && n.body.fields["characterDesign"].Design? {
        var nodes := n.body.fields["characterDesign"].design.nodes;
        var spoken := NodesSpeak(nodes, blank);
        if nodes == [] || !spoken {
          return false;
        }
      }
    }
    ok := true;
  }

  lemma DesignsByPlot(p: Plan, blank: string -> bool)
    ensures DesignsReady(p, blank) <==> forall n | n in p.plots :: DesignReady(n, blank)
  {
  }

  // ----- look-ups -----

  /** The dictionary by id holds the last block of an id. */
  function LastBlock(blocks: seq<StoryBlock>, id: string): Option<StoryBlock> {
    if blocks == [] then None
    else if blocks[|blocks| - 1].node.id == id then Some(blocks[|blocks| - 1])
    else LastBlock(blocks[..|blocks| - 1], id)
  }

  predicate ActiveIn(nodes: map<string, Node>, id: string) { id in nodes && nodes[id].lifecycle.Active? }

  predicate BlockReadyByMaps(p: Plan, b: StoryBlock) {
    && b.node.lifecycle.Active? && b.node.body.BlockBody?
    && ActiveIn(NodeMap(p.volumes), b.node.body.volumeId)
    && (forall id | id in b.node.body.plotIds :: ActiveIn(NodeMap(p.plots), id))
    && exists s | s in b.stages :: s.node.lifecycle.Active? && exists t | t in s.tasks :: t.lifecycle.Active?
  }

  /** What the check decides for any aggregate, also one that names an id twice. */
  predicate ConfirmableByMaps(p: Plan, blank: string -> bool) {
    && DesignsReady(p, blank)
    && p.activeBlock.Some?
    && var b := LastBlock(p.blocks, p.activeBlock.value);
    && b.Some? && BlockReadyByMaps(p, b.value)
    && (exists n | n in p.volumes :: n.lifecycle.Active?)
    && (exists n | n in p.plots :: n.lifecycle.Active?)
  }

  method ById(nodes: seq<Node>) returns (byId: map<string, Node>)
    ensures byId == NodeMap(nodes)
  {
    byId := map[];
    assert nodes[..0] == [];
    for i := 0 to |nodes|
      invariant byId == NodeMap(nodes[..i])
    {
      assert nodes[..i + 1][..i] == nodes[..i];
      byId := byId[nodes[i].id := nodes[i]];
    }
    assert nodes[..|nodes|] == nodes;
  }

  predicate Different(nodes: seq<Node>) { forall i, j | 0 <= i < j < |nodes| :: nodes[i].id != nodes[j].id }

  lemma ActiveByMap(nodes: seq<Node>, id: string)
    requires Different(nodes)
    ensures HasActive(nodes, id) <==> ActiveIn(NodeMap(nodes), id)
  {
    NodeMapKeys(nodes, id);
    forall n | n in nodes && n.id == id
      ensures NodeMap(nodes)[id] == n
    {
      var i :| 0 <= i < |nodes| && nodes[i] == n;
      NodeMapHas(nodes, i);
    }
  }

  lemma LevelsDiffer(p: Plan)
    requires IdsOk(Nodes(p))
    ensures Different(p.volumes) && Different(p.plots)
    ensures forall i, j | 0 <= i < j < |p.blocks| :: p.blocks[i].node.id != p.blocks[j].node.id
  {
    hide BlockNodes;
    var v, w := |p.volumes|, |p.volumes| + |p.plots|;
    assert forall i | 0 <= i < v :: Nodes(p)[i] == p.volumes[i];
    assert forall i | 0 <= i < |p.plots| :: Nodes(p)[v + i] == p.plots[i];
    assert Nodes(p)[w..] == BlockNodes(p.blocks);
    assert forall i | 0 <= i < |BlockNodes(p.blocks)| :: BlockNodes(p.blocks)[i] == Nodes(p)[w + i];
    BlocksDiffer(p.blocks);
  }

  lemma {:induction false} BlocksDiffer(blocks: seq<StoryBlock>)
    requires Different(BlockNodes(blocks))
    ensures forall i, j | 0 <= i < j < |blocks| :: blocks[i].node.id != blocks[j].node.id
  {
    if blocks != [] {
      var front := [blocks[0].node] + StageNodes(blocks[0].stages);
      var rest := BlockNodes(blocks[1..]);
      assert BlockNodes(blocks) == front + rest;
      assert forall i | 0 <= i < |rest| :: BlockNodes(blocks)[|front| + i] == rest[i];
      BlocksDiffer(blocks[1..]);
      forall j | 0 < j < |blocks|
        ensures blocks[0].node.id != blocks[j].node.id
      {
        assert blocks[1..][j - 1] == blocks[j];
        BlockNodesHas(blocks[1..], blocks[j].node);
        var k :| 0 <= k < |rest| && rest[k] == blocks[j].node;
        assert BlockNodes(blocks)[0] == blocks[0].node;
      }
      assert forall i, j | 0 < i < j < |blocks| :: blocks[i] == blocks[1..][i - 1] && blocks[j] == blocks[1..][j - 1];
    }
  }

  // ----- the check -----

  method ActiveStageWithActiveTask(b: StoryBlock) returns (found: bool)
    ensures found <==> exists s | s in b.stages :: s.node.lifecycle.Active? && exists t | t in s.tasks :: t.lifecycle.Active?
  {
    found := false;
    for i := 0 to |b.stages|
      invariant found <==> exists s | s in b.stages[..i] :: s.node.lifecycle.Active? && exists t | t in s.tasks :: t.lifecycle.Active?
    {
      var s := b.stages[i];
      assert b.stages[..i + 1] == b.stages[..i] + [s];
      if s.node.lifecycle.Active? && exists t | t in s.tasks :: t.lifecycle.Active? {
        found := true;
      }
    }
    assert b.stages[..|b.stages|] == b.stages;
  }

  /** The look-ups of the active block, its volume and its plots. */
  method BlockIsReady(p: Plan, b: StoryBlock) returns (ok: bool)
    requires b.node.body.BlockBody?
    ensures ok <==> BlockReadyByMaps(p, b)
  {
    hide NodeMap;
    var volumes := ById(p.volumes);
    var plots := ById(p.plots);
    var volume := b.node.body.volumeId;
    if !b.node.lifecycle.Active? || volume !in volumes || !volumes[volume].lifecycle.Active? {
      return false;
    }
    var named := b.node.body.plotIds;
    for i := 0 to |named|
      invariant forall k | 0 <= k < i :: ActiveIn(plots, named[k])
    {
      if named[i] !in plots || !plots[named[i]].lifecycle.Active? {
        assert named[i] in named;
        return false;
      }
    }
    ok := ActiveStageWithActiveTask(b);
  }

  method FindBlock(blocks: seq<StoryBlock>, id: string) returns (block: Option<StoryBlock>)
    ensures block == LastBlock(blocks, id)
  {
    block := None;
    assert blocks[..0] == [];
    for i := 0 to |blocks|
      invariant block == LastBlock(blocks[..i], id)
    {
      assert blocks[..i + 1][..i] == blocks[..i];
      if blocks[i].node.id == id {
        block := Some(blocks[i]);
      }
    }
    assert blocks[..|blocks|] == blocks;
  }

  method ValidateConfirmablePlanning(p: Plan, blank: string -> bool) returns (ok: bool)
    requires Shaped(p)
    ensures ok <==> ConfirmableByMaps(p, blank)
  {
    hide DesignsReady, BlockReadyByMaps;
    var ready := DesignsAreReady(p, blank);
    if !ready || p.activeBlock.None? {
      return false;
    }
    var block := FindBlock(p.blocks, p.activeBlock.value);
    LastBlockIs(p.blocks, p.activeBlock.value);
    if block.None? {
      return false;
    }
    assert KindOf(block.value.node.body) == BlockKind;
    var blockReady := BlockIsReady(p, block.value);
    ok := blockReady && (exists n | n in p.volumes :: n.lifecycle.Active?) && (exists n | n in p.plots :: n.lifecycle.Active?);
  }

  lemma {:induction false} LastBlockIs(blocks: seq<StoryBlock>, id: string)
    ensures var b := LastBlock(blocks, id);
      if b.Some? then b.value in blocks && b.value.node.id == id else forall x | x in blocks :: x.node.id != id
  {
    if blocks != [] {
      LastBlockIs(blocks[..|blocks| - 1], id);
      assert blocks == blocks[..|blocks| - 1] + [blocks[|blocks| - 1]];
    }
  }

  /** With distinct ids the last of an id is the only one: the check asks what confirmation asks for. */
  lemma ChecksConfirmable(p: Plan, blank: string -> bool)
    requires IdsOk(Nodes(p))
    ensures ConfirmableByMaps(p, blank) <==> Confirmable(p, blank)
  {
    hide Nodes, NodeMap, HasActive, Different, IdsOk, DesignsReady, LastBlock;
    LevelsDiffer(p);
    forall id
      ensures HasActive(p.volumes, id) <==> ActiveIn(NodeMap(p.volumes), id)
      ensures HasActive(p.plots, id) <==> ActiveIn(NodeMap(p.plots), id)
    {
      ActiveByMap(p.volumes, id);
      ActiveByMap(p.plots, id);
    }
    if p.activeBlock.Some? {
      LastBlockIs(p.blocks, p.activeBlock.value);
      forall b | b in p.blocks && b.node.id == p.activeBlock.value
        ensures LastBlock(p.blocks, p.activeBlock.value) == Some(b)
      {
        OneBlock(p, b);
      }
    }
  }

  lemma OneBlock(p: Plan, b: StoryBlock)
    requires b in p.blocks && forall i, j | 0 <= i < j < |p.blocks| :: p.blocks[i].node.id != p.blocks[j].node.id
    ensures forall x | x in p.blocks && x.node.id == b.node.id :: x == b
  {
    var i :| 0 <= i < |p.blocks| && p.blocks[i] == b;
    forall x | x in p.blocks && x.node.id == b.node.id
      ensures x == b
    {
      var j :| 0 <= j < |p.blocks| && p.blocks[j] == x;
    }
  }
}
