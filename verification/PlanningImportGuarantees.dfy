/** An injective renaming keeps an aggregate closed, and outlines follow their nodes. */
module PlanningImportGuarantees {
  import opened Wrappers
  import opened Planning
  import opened PlanningClosed
  import opened PlanningFixedPoint
  import opened PlanningPatches
  import opened ImportIdentities
  import opened PlanningImport

  // ----- the nodes of an imported aggregate -----

  lemma PassConcat(w: Pass, a: seq<Node>, b: seq<Node>)
    ensures PassAll(w, a + b) == PassAll(w, a) + PassAll(w, b)
  {
    hide PassNode;
  }

  lemma {:induction false} StagesPassed(w: Pass, stages: seq<Stage>)
    ensures StageNodes(PassStages(w, stages)) == PassAll(w, StageNodes(stages))
  {
    if stages != [] {
      hide PassNode;
      var s := stages[0];
      StagesPassed(w, stages[1..]);
      assert PassStages(w, stages)[1..] == PassStages(w, stages[1..]);
      assert [PassNode(w, s.node)] == PassAll(w, [s.node]);
      PassConcat(w, [s.node], s.tasks);
      PassConcat(w, [s.node] + s.tasks, StageNodes(stages[1..]));
    }
  }

  lemma {:induction false} BlocksPassed(w: Pass, blocks: seq<StoryBlock>)
    ensures BlockNodes(PassBlocks(w, blocks)) == PassAll(w, BlockNodes(blocks))
  {
    if blocks != [] {
      hide PassNode;
      var b := blocks[0];
      BlocksPassed(w, blocks[1..]);
      assert PassBlocks(w, blocks)[1..] == PassBlocks(w, blocks[1..]);
      StagesPassed(w, b.stages);
      assert [PassNode(w, b.node)] == PassAll(w, [b.node]);
      PassConcat(w, [b.node], StageNodes(b.stages));
      PassConcat(w, [b.node] + StageNodes(b.stages), BlockNodes(blocks[1..]));
    }
  }

  lemma NodesPassed(w: Pass, p: Plan)
    ensures Nodes(Passed(w, p)) == PassAll(w, Nodes(p))
  {
    hide PassNode;
    BlocksPassed(w, p.blocks);
    PassConcat(w, p.volumes, p.plots);
    PassConcat(w, p.volumes + p.plots, BlockNodes(p.blocks));
  }

  lemma NodesImported(ids: IdMap, p: Plan)
    ensures Nodes(Imported(ids, p)) == PassAll(Import(ids), Nodes(p))
  {
    hide Nodes, Passed, PassAll;
    NodesPassed(Import(ids), p);
  }

  /** What one node becomes. */
  function ImportNode(ids: IdMap, n: Node): Node { PassNode(Import(ids), n) }

  lemma ImportNodeFacts(ids: IdMap, n: Node)
    ensures var m := ImportNode(ids, n);
            && m.id == Target(ids, KindOf(n.body), n.id) && m.revision == n.revision
            && m.lifecycle == n.lifecycle && m.order == n.order
            && m.hash == NodeDigest(PayloadOf(m)) && m.body == RenamedBody(ids, n.body)
            && KindOf(m.body) == KindOf(n.body)
  {
    hide RenamedFields;
  }

  /** The pass gives nodes the ids of the importing project. */
  predicate Renames(w: Pass) { !w.Rehash? }

  /** A body without its own fields: the nodes it belongs to. */
  function Links(b: Body): Body { b.(fields := map[]) }

  lemma PassedNodeFacts(w: Pass, n: Node)
    requires Renames(w)
    ensures var m := PassNode(w, n);
            && m.id == Target(w.ids, KindOf(n.body), n.id) && m.revision == n.revision
            && m.lifecycle == n.lifecycle && m.order == n.order
            && Links(m.body) == Links(RenamedBody(w.ids, n.body))
            && KindOf(m.body) == KindOf(n.body)
  {
    hide RenamedFields;
  }

  /** Of a node's own fields only the character design's entity is renamed, and by the map. */
  lemma RenamedFieldsKeep(ids: IdMap, fields: Fields)
    ensures var r := RenamedFields(ids, fields);
            && r.Keys == fields.Keys
            && (forall k | k in fields && k != "characterDesign" :: r[k] == fields[k])
            && (EntityOf(fields).None? ==> r == fields)
            && (EntityOf(fields).Some? && (ENTITY, EntityOf(fields).value) in ids ==>
                  EntityOf(r) == Some(ids[(ENTITY, EntityOf(fields).value)])
                  && r["characterDesign"].design.displayName == fields["characterDesign"].design.displayName
                  && r["characterDesign"].design.nodes == fields["characterDesign"].design.nodes)
  {
  }

  // ----- distinct ids stay distinct -----

  lemma TypeNameInjective(a: Kind, b: Kind)
    ensures TypeName(a) == TypeName(b) ==> a == b
  {
    assert "planning-volume"[9] != "planning-plot"[9] && "planning-stage"[9] != "planning-volume"[9];
  }

  lemma TargetsDiffer(ids: IdMap, a: Kind, x: string, b: Kind, y: string)
    requires Injective(ids) && HasTarget(ids, a, x) && HasTarget(ids, b, y)
    ensures Target(ids, a, x) == Target(ids, b, y) <==> a == b && x == y
  {
    hide TypeName;
    TypeNameInjective(a, b);
  }

  predicate NonEmptyTargets(ids: IdMap) { forall x | x in ids :: ids[x] != "" }

  lemma PassedIdsOk(w: Pass, p: Plan)
    requires Renames(w) && IdsOk(Nodes(p)) && PlanMapped(w.ids, p) && Injective(w.ids) && NonEmptyTargets(w.ids)
    ensures IdsOk(Nodes(Passed(w, p)))
  {
    hide Nodes, Passed, BodyMapped, PassNode, Injective, TypeName;
    NodesPassed(w, p);
    var ns := Nodes(p);
    var ms := Nodes(Passed(w, p));
    forall i | 0 <= i < |ns|
      ensures ms[i].id == Target(w.ids, KindOf(ns[i].body), ns[i].id) && ms[i].id != ""
      ensures HasTarget(w.ids, KindOf(ns[i].body), ns[i].id)
    {
      assert ns[i] in ns && NodeMapped(w.ids, ns[i]);
      assert ms[i] == PassNode(w, ns[i]);
      PassedNodeFacts(w, ns[i]);
    }
    forall i, j | 0 <= i < j < |ms|
      ensures ms[i].id != ms[j].id
    {
      TargetsDiffer(w.ids, KindOf(ns[i].body), ns[i].id, KindOf(ns[j].body), ns[j].id);
    }
  }

  // ----- the parts of closedness -----

  lemma PassedKinds(w: Pass, ns: seq<Node>, k: Kind)
    requires Renames(w) && AllOfKind(ns, k)
    ensures AllOfKind(PassAll(w, ns), k)
  {
    hide PassNode;
    forall i | 0 <= i < |ns|
      ensures KindOf(PassAll(w, ns)[i].body) == k
    {
      PassedNodeFacts(w, ns[i]);
      assert ns[i] in ns;
    }
  }

  lemma PassedOrders(w: Pass, ns: seq<Node>)
    requires Renames(w) && OrdersUnique(ns)
    ensures OrdersUnique(PassAll(w, ns))
  {
    hide PassNode;
    forall i | 0 <= i < |ns|
      ensures PassAll(w, ns)[i].order == ns[i].order
    {
      PassedNodeFacts(w, ns[i]);
    }
  }

  predicate StageShaped(s: Stage) { KindOf(s.node.body) == StageKind && AllOfKind(s.tasks, TaskKind) }

  lemma PassedStage(w: Pass, s: Stage)
    requires Renames(w) && StageShaped(s) && OrdersUnique(s.tasks)
    ensures var t := PassStage(w, s);
            StageShaped(t) && OrdersUnique(t.tasks) && t.node.order == s.node.order
  {
    hide PassNode, PassAll, AllOfKind, OrdersUnique;
    PassedKinds(w, s.tasks, TaskKind);
    PassedOrders(w, s.tasks);
    PassedNodeFacts(w, s.node);
  }

  predicate BlockShaped(b: StoryBlock) { KindOf(b.node.body) == BlockKind && forall s | s in b.stages :: StageShaped(s) }

  lemma PassedBlock(w: Pass, b: StoryBlock)
    requires Renames(w) && BlockShaped(b) && StagesLevel(b.stages)
    ensures var c := PassBlock(w, b);
            BlockShaped(c) && StagesLevel(c.stages) && c.node.order == b.node.order
  {
    hide PassNode, PassStage, StageShaped, OrdersUnique;
    PassedNodeFacts(w, b.node);
    forall i | 0 <= i < |b.stages|
      ensures var t := PassStages(w, b.stages)[i];
              StageShaped(t) && OrdersUnique(t.tasks) && t.node.order == b.stages[i].node.order
    {
      assert b.stages[i] in b.stages;
      PassedStage(w, b.stages[i]);
    }
  }

  lemma ShapedByBlock(p: Plan)
    ensures Shaped(p) <==> AllOfKind(p.volumes, VolumeKind) && AllOfKind(p.plots, PlotKind) && forall b | b in p.blocks :: BlockShaped(b)
  {
    hide AllOfKind;
  }

  lemma PassedLevels(w: Pass, p: Plan)
    requires Renames(w) && Shaped(p) && LevelsOk(p)
    ensures Shaped(Passed(w, p)) && LevelsOk(Passed(w, p))
  {
    hide PassAll, PassBlock, BlockShaped, StagesLevel, OrdersUnique, AllOfKind, Shaped;
    var q := Passed(w, p);
    ShapedByBlock(p);
    ShapedByBlock(q);
    PassedKinds(w, p.volumes, VolumeKind);
    PassedKinds(w, p.plots, PlotKind);
    PassedOrders(w, p.volumes);
    PassedOrders(w, p.plots);
    forall i | 0 <= i < |p.blocks|
      ensures BlockShaped(q.blocks[i]) && StagesLevel(q.blocks[i].stages) && q.blocks[i].node.order == p.blocks[i].node.order
    {
      assert p.blocks[i] in p.blocks;
      PassedBlock(w, p.blocks[i]);
    }
  }

  lemma ImportedHashes(ids: IdMap, p: Plan)
    ensures HashesOk(Imported(ids, p))
  {
    hide Nodes, PassNode, PassPlan;
    NodesImported(ids, p);
    var ms := Nodes(Imported(ids, p));
    forall m | m in ms
      ensures m.hash == NodeDigest(PayloadOf(m))
    {
      var i :| 0 <= i < |ms| && ms[i] == m;
      assert m == ImportNode(ids, Nodes(p)[i]);
      ImportNodeFacts(ids, Nodes(p)[i]);
    }
  }

  // ----- relations -----

  lemma PassedNames(w: Pass, ns: seq<Node>, k: Kind, id: string)
    requires Renames(w) && AllOfKind(ns, k) && Names(ns, id)
    ensures Names(PassAll(w, ns), Target(w.ids, k, id))
  {
    hide PassNode;
    var i :| 0 <= i < |ns| && ns[i].id == id;
    assert ns[i] in ns;
    PassedNodeFacts(w, ns[i]);
    assert PassAll(w, ns)[i] in PassAll(w, ns);
  }

  lemma ImportedDistinct(ids: IdMap, xs: seq<string>)
    requires Distinct(xs) && Injective(ids) && forall x | x in xs :: HasTarget(ids, PlotKind, x)
    ensures Distinct(TargetAll(ids, PlotKind, xs))
  {
    hide Injective, Target, HasTarget;
    forall i, j | 0 <= i < j < |xs|
      ensures Target(ids, PlotKind, xs[i]) != Target(ids, PlotKind, xs[j])
    {
      TargetsDiffer(ids, PlotKind, xs[i], PlotKind, xs[j]);
    }
  }

  lemma PassedRelations(w: Pass, p: Plan, b: StoryBlock)
    requires Renames(w) && Shaped(p) && Injective(w.ids) && BlockClosed(p, b) && NodeMapped(w.ids, b.node) && b.node.body.BlockBody?
    ensures var q := Passed(w, p);
            var c := PassNode(w, b.node).body;
            c.BlockBody? && Names(q.volumes, c.volumeId) && Distinct(c.plotIds) && forall id | id in c.plotIds :: Names(q.plots, id)
  {
    hide PassNode, PassAll, PassBlocks, Injective, Target, Names, Distinct, HasTarget, AllOfKind;
    PassedNodeFacts(w, b.node);
    PassedNames(w, p.volumes, VolumeKind, b.node.body.volumeId);
    ImportedDistinct(w.ids, b.node.body.plotIds);
    var plots := b.node.body.plotIds;
    forall i | 0 <= i < |plots|
      ensures Names(PassAll(w, p.plots), TargetAll(w.ids, PlotKind, plots)[i])
    {
      assert plots[i] in plots;
      PassedNames(w, p.plots, PlotKind, plots[i]);
    }
  }

  /** Every stage and task names its own container. */
  predicate StageParented(b: StoryBlock, s: Stage) {
    && (s.node.body.StageBody? ==> s.node.body.blockId == b.node.id)
    && (forall t | t in s.tasks :: t.body.TaskBody? ==> t.body.stageId == s.node.id)
  }

  lemma PassedParents(w: Pass, b: StoryBlock, s: Stage)
    requires Renames(w) && KindOf(b.node.body) == BlockKind && StageShaped(s) && StageParented(b, s)
    ensures StageParented(PassBlock(w, b), PassStage(w, s))
  {
    hide PassNode, Target, PassStages;
    PassedNodeFacts(w, b.node);
    PassedNodeFacts(w, s.node);
    forall i | 0 <= i < |s.tasks|
      ensures var t := PassAll(w, s.tasks)[i];
              t.body.TaskBody? ==> t.body.stageId == PassNode(w, s.node).id
    {
      assert s.tasks[i] in s.tasks;
      PassedNodeFacts(w, s.tasks[i]);
    }
  }

  lemma ClosedByStage(p: Plan, b: StoryBlock)
    ensures BlockClosed(p, b) <==>
              && (b.node.body.BlockBody? ==>
                    && Names(p.volumes, b.node.body.volumeId) && Distinct(b.node.body.plotIds)
                    && forall id | id in b.node.body.plotIds :: Names(p.plots, id))
              && (forall s | s in b.stages :: StageParented(b, s))
  {
    hide Names, Distinct;
  }

  lemma PassedBlockClosed(w: Pass, p: Plan, b: StoryBlock)
    requires Renames(w) && Shaped(p) && BlockShaped(b) && Injective(w.ids) && BlockClosed(p, b) && NodeMapped(w.ids, b.node)
    ensures BlockClosed(Passed(w, p), PassBlock(w, b))
  {
    hide Shaped, Injective, BlockClosed, NodeMapped, Passed, PassNode, PassStage, Names, Distinct, StageShaped;
    hide StageParented;
    ClosedByStage(p, b);
    PassedRelations(w, p, b);
    forall i | 0 <= i < |b.stages|
      ensures StageParented(PassBlock(w, b), PassStages(w, b.stages)[i])
    {
      assert b.stages[i] in b.stages;
      PassedParents(w, b, b.stages[i]);
    }
    ClosedByStage(Passed(w, p), PassBlock(w, b));
  }

  lemma PassedActive(w: Pass, p: Plan)
    requires Renames(w) && Shaped(p) && ActiveClosed(p)
    ensures ActiveClosed(Passed(w, p))
  {
    hide PassNode, Target, AllOfKind;
    if p.activeBlock.Some? {
      var i :| 0 <= i < |p.blocks| && p.blocks[i].node.id == p.activeBlock.value && p.blocks[i].node.lifecycle.Active?;
      assert p.blocks[i] in p.blocks;
      PassedNodeFacts(w, p.blocks[i].node);
      assert Passed(w, p).blocks[i] in Passed(w, p).blocks;
    }
  }

  // ----- the theorems -----

  /** A pass by an injective map keeps an aggregate closed. */
  lemma PassedIsClosed(w: Pass, p: Plan)
    requires Renames(w) && ClosedPlan(p) && PlanMapped(w.ids, p) && Injective(w.ids) && NonEmptyTargets(w.ids)
    ensures ClosedPlan(Passed(w, p))
  {
    hide Nodes, Shaped, IdsOk, LevelsOk, BlockClosed, ActiveClosed, Injective, NonEmptyTargets, NodeMapped;
    hide PassBlock, PassAll;
    hide BlockShaped, AllOfKind;
    PassedLevels(w, p);
    PassedIdsOk(w, p);
    PassedActive(w, p);
    ShapedByBlock(p);
    NodesHas(p);
    var q := Passed(w, p);
    forall b | b in q.blocks
      ensures BlockClosed(q, b)
    {
      var i :| 0 <= i < |p.blocks| && q.blocks[i] == b;
      assert p.blocks[i] in p.blocks && NodeMapped(w.ids, p.blocks[i].node);
      PassedBlockClosed(w, p, p.blocks[i]);
    }
  }

  /** An import by an injective map is closed with true hashes, whatever hashes the package held. */
  lemma ImportedIsCanonical(ids: IdMap, p: Plan)
    requires ClosedPlan(p) && PlanMapped(ids, p) && Injective(ids) && NonEmptyTargets(ids)
    ensures Canonical(Imported(ids, p))
  {
    hide ClosedPlan, HashesOk, Passed, PlanMapped, Injective, NonEmptyTargets;
    PassedIsClosed(Import(ids), p);
    ImportedHashes(ids, p);
  }

  /** Node by node: same place, kind, revision, lifecycle and order, a renamed id and a true hash. */
  lemma ImportedNodes(ids: IdMap, p: Plan, i: nat)
    requires i < |Nodes(p)|
    ensures var ms := Nodes(Imported(ids, p));
            var n := Nodes(p)[i];
            && |ms| == |Nodes(p)|
            && ms[i].id == Target(ids, KindOf(n.body), n.id) && ms[i].revision == n.revision
            && ms[i].lifecycle == n.lifecycle && ms[i].order == n.order && KindOf(ms[i].body) == KindOf(n.body)
            && ms[i].hash == NodeDigest(PayloadOf(ms[i]))
  {
    hide Nodes, PassNode, Imported;
    NodesImported(ids, p);
    assert Nodes(Imported(ids, p))[i] == ImportNode(ids, Nodes(p)[i]);
    ImportNodeFacts(ids, Nodes(p)[i]);
  }

  /** The imported aggregate is a fixed point of the normaliser: editing nothing changes nothing. */
  lemma ImportedIsFixedPoint(ids: IdMap, p: Plan, previous: Option<Plan>, factory: nat -> string)
    requires ClosedPlan(p) && PlanMapped(ids, p) && Injective(ids) && NonEmptyTargets(ids)
    requires previous.None? || previous == Some(Imported(ids, p))
    ensures Normalize(Editable(Imported(ids, p), map[]), Some(Imported(ids, p)), previous, factory) == Success(Imported(ids, p))
  {
    hide Nodes, Imported, Canonical, ClosedPlan, PlanMapped, Injective, NonEmptyTargets, Normalize, Editable, Latest;
    ImportedIsCanonical(ids, p);
    CanonicalIds(Imported(ids, p));
    LatestForItself(Imported(ids, p), previous);
    LatestIsFixedPoint(Imported(ids, p), Some(Imported(ids, p)), previous, factory);
  }

  // ----- reading the stored payload back -----

  /** The planning models read the node's stored fields as they were hashed. */
  predicate ReadsBack(ids: IdMap, read: Fields -> Fields, n: Node) {
    var f := RenamedBody(ids, n.body).fields;
    read(f) == f
  }

  lemma ArrivedHash(ids: IdMap, read: Fields -> Fields, n: Node)
    ensures var m := PassNode(Arrive(ids, read), n);
            m.hash == NodeDigest(PayloadOf(m)) <==> ReadsBack(ids, read, n)
  {
    hide RenamedFields;
    var b := RenamedBody(ids, n.body);
    assert ReadBody(read, b).fields == read(b.fields);
    assert read(b.fields) == b.fields ==> ReadBody(read, b) == b;
  }

  /** What editing nothing makes of one node of the arrived aggregate. */
  lemma ArrivedRevised(ids: IdMap, read: Fields -> Fields, n: Node)
    ensures var m := PassNode(Arrive(ids, read), n);
            && Revise(m, map[]).revision == n.revision + (if ReadsBack(ids, read, n) then 0 else 1)
            && (Revise(m, map[]) == m <==> ReadsBack(ids, read, n))
  {
    hide PassNode, ReadsBack;
    PassedNodeFacts(Arrive(ids, read), n);
    ArrivedHash(ids, read, n);
  }

  lemma RevisedIfTrue(q: Plan)
    requires q == Hashed(q)
    ensures Revised(q, map[]) == q <==> forall i | 0 <= i < |Nodes(q)| :: Revise(Nodes(q)[i], map[]) == Nodes(q)[i]
  {
    hide Nodes, Revised;
    NodesRevised(q, map[]);
    if forall i | 0 <= i < |Nodes(q)| :: Revise(Nodes(q)[i], map[]) == Nodes(q)[i] {
      forall n | n in Nodes(q)
        ensures n.hash == NodeDigest(PayloadOf(n))
      {
        var i :| 0 <= i < |Nodes(q)| && Nodes(q)[i] == n;
        assert Revise(n, map[]) == n;
      }
      UnchangedPlan(q);
    }
  }

  /**
    Editing nothing in an imported aggregate as the importing project reads it back: accepted,
    and each node is revised once exactly when its stored fields do not read back as hashed.
  */
  lemma ArrivedIsFixedPointIff(ids: IdMap, read: Fields -> Fields, p: Plan, previous: Option<Plan>, factory: nat -> string)
    requires ClosedPlan(p) && PlanMapped(ids, p) && Injective(ids) && NonEmptyTargets(ids)
    requires previous.None? || previous == Some(Passed(Arrive(ids, read), p))
    ensures var q := Passed(Arrive(ids, read), p);
            var r := Normalize(Editable(q, map[]), Some(q), previous, factory);
            && r.Success? && |Nodes(r.value)| == |Nodes(p)|
            && (forall i | 0 <= i < |Nodes(p)| ::
                  Nodes(r.value)[i].revision == Nodes(p)[i].revision + if ReadsBack(ids, read, Nodes(p)[i]) then 0 else 1)
            && (r == Success(q) <==> forall n | n in Nodes(p) :: ReadsBack(ids, read, n))
  {
    hide Nodes, Passed, PassNode, ClosedPlan, PlanMapped, Injective, NonEmptyTargets, Normalize, Editable, Latest, Revise, Revised;
    hide ReadsBack;
    var w := Arrive(ids, read);
    var q := Passed(w, p);
    PassedIsClosed(w, p);
    ClosedIds(q);
    LatestForItself(q, previous);
    EditsReviseNodeByNode(q, map[], Some(q), previous, factory);
    NodesRevised(q, map[]);
    NodesPassed(w, p);
    forall i | 0 <= i < |Nodes(p)|
      ensures Nodes(q)[i] == PassNode(w, Nodes(p)[i])
      ensures Revise(Nodes(q)[i], map[]).revision == Nodes(p)[i].revision + if ReadsBack(ids, read, Nodes(p)[i]) then 0 else 1
      ensures Revise(Nodes(q)[i], map[]) == Nodes(q)[i] <==> ReadsBack(ids, read, Nodes(p)[i])
    {
      ArrivedRevised(ids, read, Nodes(p)[i]);
    }
    PassedIsHashed(w, p);
    RevisedIfTrue(q);
  }

  lemma PassedIsHashed(w: Pass, p: Plan)
    ensures Passed(w, p) == Hashed(Passed(w, p))
  {
    hide PassPlan;
  }

  lemma ClosedIds(p: Plan)
    requires ClosedPlan(p)
    ensures IdsOk(Nodes(p))
  {
    hide Nodes, Shaped, LevelsOk, BlockClosed, ActiveClosed, IdsOk;
  }

  /** What the plot model makes of an explicit null: a plot without a character design. */
  function WithoutNullDesign(fields: Fields): Fields {
    if "characterDesign" in fields && fields["characterDesign"] == OtherJson("null") then fields - {"characterDesign"} else fields
  }

  /** A stored node fails to read back exactly when it holds an explicit null design. */
  lemma OnlyNullFailsToReadBack(ids: IdMap, n: Node)
    ensures ReadsBack(ids, WithoutNullDesign, n) <==>
              !("characterDesign" in n.body.fields && n.body.fields["characterDesign"] == OtherJson("null"))
  {
    RenamedFieldsKeep(ids, n.body.fields);
    var f := RenamedBody(ids, n.body).fields;
    assert "characterDesign" !in WithoutNullDesign(f) || WithoutNullDesign(f) == f;
  }
}
