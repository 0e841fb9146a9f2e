/** Outlines of an imported project: ids renamed, hashes pinned again to the rewritten aggregate. */
module OutlineImport {
  import opened Wrappers
  import opened Planning
  import opened PlanningClosed
  import opened PlanningFixedPoint
  import opened PlanningPatches
  import opened ImportIdentities
  import opened PlanningImport
  import opened PlanningImportGuarantees
  import opened ChapterOutlines

  function HashTable(nodes: seq<Node>): map<string, NodeHash> {
    map id | id in NodeMap(nodes) :: NodeMap(nodes)[id].hash
  }

  function RenamedRef(ids: IdMap, k: Kind, ref: NodeRef): NodeRef { ref.(id := Target(ids, k, ref.id)) }

  function Repinned(hashes: map<string, NodeHash>, ref: NodeRef): NodeRef {
    if ref.id in hashes then ref.(hash := hashes[ref.id]) else ref
  }

  function ImportedRef(ids: IdMap, q: Plan, k: Kind, ref: NodeRef): NodeRef {
    Repinned(HashTable(Nodes(q)), RenamedRef(ids, k, ref))
  }

  function ImportedRefs(ids: IdMap, q: Plan, k: Kind, refs: seq<NodeRef>): (r: seq<NodeRef>)
    ensures |r| == |refs|
  {
    seq(|refs|, i requires 0 <= i < |refs| => ImportedRef(ids, q, k, refs[i]))
  }

  /** The outline as stored beside the rewritten aggregate. */
  function ImportedOutline(ids: IdMap, q: Plan, o: Outline): Outline {
    Outline(ImportedRef(ids, q, VolumeKind, o.volume), ImportedRef(ids, q, BlockKind, o.block),
            ImportedRefs(ids, q, StageKind, o.stages), ImportedRefs(ids, q, TaskKind, o.tasks))
  }

  predicate RefsMapped(ids: IdMap, k: Kind, refs: seq<NodeRef>) { forall r | r in refs :: HasTarget(ids, k, r.id) }

  predicate OutlineMapped(ids: IdMap, o: Outline) {
    && HasTarget(ids, VolumeKind, o.volume.id) && HasTarget(ids, BlockKind, o.block.id)
    && RefsMapped(ids, StageKind, o.stages) && RefsMapped(ids, TaskKind, o.tasks)
  }

  // ----- the passes as loops -----

  method NodeHashes(nodes: seq<Node>) returns (hashes: map<string, NodeHash>)
    ensures hashes == HashTable(nodes)
  {
    hashes := map[];
    assert nodes[..0] == [];
    for i := 0 to |nodes|
      invariant hashes == HashTable(nodes[..i])
    {
      assert nodes[..i + 1][..i] == nodes[..i];
      hashes := hashes[nodes[i].id := nodes[i].hash];
    }
    assert nodes[..|nodes|] == nodes;
  }

  method ImportRefs(refs: seq<NodeRef>, ids: IdMap, k: Kind, hashes: map<string, NodeHash>) returns (ok: bool, r: seq<NodeRef>)
    ensures ok <==> RefsMapped(ids, k, refs)
    ensures ok ==> |r| == |refs| && forall i | 0 <= i < |refs| :: r[i] == Repinned(hashes, RenamedRef(ids, k, refs[i]))
  {
    hide HasTarget, Target, Repinned;
    r := refs;
    for i := 0 to |refs|
      invariant |r| == |refs|
      invariant forall j | 0 <= j < i :: HasTarget(ids, k, refs[j].id) && r[j] == RenamedRef(ids, k, refs[j])
      invariant forall j | i <= j < |refs| :: r[j] == refs[j]
    {
      if !HasTarget(ids, k, r[i].id) {
        assert refs[i] in refs;
        return false, refs;
      }
      r := r[i := r[i].(id := Target(ids, k, r[i].id))];
    }
    for i := 0 to |refs|
      invariant |r| == |refs|
      invariant forall j | 0 <= j < i :: r[j] == Repinned(hashes, RenamedRef(ids, k, refs[j]))
      invariant forall j | i <= j < |refs| :: r[j] == RenamedRef(ids, k, refs[j])
    {
      r := r[i := Repinned(hashes, r[i])];
    }
    ok := true;
  }

  method ImportOutline(o: Outline, ids: IdMap, q: Plan) returns (r: Result<Outline, ImportError>)
    ensures r == if OutlineMapped(ids, o) then Success(ImportedOutline(ids, q, o)) else Failure(InvalidImport)
  {
    hide Nodes, HashTable, Repinned, RenamedRef, RefsMapped, HasTarget;
    if !HasTarget(ids, VolumeKind, o.volume.id) || !HasTarget(ids, BlockKind, o.block.id) {
      return Failure(InvalidImport);
    }
    var hashes := NodeHashes(Nodes(q));
    var stagesOk, stages := ImportRefs(o.stages, ids, StageKind, hashes);
    var tasksOk, tasks := ImportRefs(o.tasks, ids, TaskKind, hashes);
    if !stagesOk || !tasksOk {
      return Failure(InvalidImport);
    }
    assert stages == ImportedRefs(ids, q, StageKind, o.stages);
    assert tasks == ImportedRefs(ids, q, TaskKind, o.tasks);
    r := Success(Outline(Repinned(hashes, RenamedRef(ids, VolumeKind, o.volume)), Repinned(hashes, RenamedRef(ids, BlockKind, o.block)),
                         stages, tasks));
  }

  // ----- references follow their nodes -----

  lemma ImportedMember(ids: IdMap, p: Plan, n: Node)
    requires n in Nodes(p)
    ensures ImportNode(ids, n) in Nodes(Imported(ids, p))
  {
    hide Nodes, Imported, PassNode;
    NodesImported(ids, p);
    var i :| 0 <= i < |Nodes(p)| && Nodes(p)[i] == n;
    assert Nodes(Imported(ids, p))[i] == ImportNode(ids, n);
  }

  /** A rewritten reference resolves to the renamed image of the node it named before. */
  lemma ReferenceFollowsImport(ids: IdMap, p: Plan, k: Kind, ref: NodeRef)
    requires Canonical(p) && PlanMapped(ids, p) && Injective(ids) && NonEmptyTargets(ids)
    requires Resolves(p, k, ref)
    ensures var q := Imported(ids, p);
            var r := ImportedRef(ids, q, k, ref);
            && HasTarget(ids, k, ref.id) && r.id == Target(ids, k, ref.id)
            && Resolves(q, k, r) && Referenced(q, k, r) == ImportNode(ids, Referenced(p, k, ref))
  {
    hide Nodes, Imported, Canonical, Injective, NonEmptyTargets, Level, ImportNode, HasTarget, Target, NodeMap;
    hide BodyMapped;
    var q := Imported(ids, p);
    LevelIs(p, k, ref.id);
    var n := Level(p, k)[ref.id];
    assert NodeMapped(ids, n);
    ImportedMember(ids, p, n);
    var m := ImportNode(ids, n);
    CanonicalIsClosed(p);
    ImportedIsCanonical(ids, p);
    CanonicalIds(q);
    ImportFacts(ids, n);
    LevelHas(q, k, m);
    NodeMapOf(Nodes(q), m);
  }

  lemma ImportFacts(ids: IdMap, n: Node)
    ensures var m := ImportNode(ids, n);
            && m.id == Target(ids, KindOf(n.body), n.id) && m.revision == n.revision
            && m.lifecycle == n.lifecycle && KindOf(m.body) == KindOf(n.body)
            && m.body == RenamedBody(ids, n.body)
  {
    ImportNodeFacts(ids, n);
  }

  lemma ActiveRefFollows(ids: IdMap, p: Plan, k: Kind, ref: NodeRef)
    requires Canonical(p) && PlanMapped(ids, p) && Injective(ids) && NonEmptyTargets(ids)
    requires ActiveRef(p, k, ref)
    ensures ActiveRef(Imported(ids, p), k, ImportedRef(ids, Imported(ids, p), k, ref))
  {
    hide Imported, Canonical, PlanMapped, Injective, NonEmptyTargets, Resolves, Referenced, ImportedRef, ImportNode;
    ReferenceFollowsImport(ids, p, k, ref);
    ImportFacts(ids, Referenced(p, k, ref));
  }

  lemma StageRefFollows(ids: IdMap, p: Plan, o: Outline, ref: NodeRef)
    requires Canonical(p) && PlanMapped(ids, p) && Injective(ids) && NonEmptyTargets(ids)
    requires StageOwned(p, o, ref) && Resolves(p, BlockKind, o.block)
    ensures StageOwned(Imported(ids, p), ImportedOutline(ids, Imported(ids, p), o), ImportedRef(ids, Imported(ids, p), StageKind, ref))
  {
    hide Imported, Canonical, PlanMapped, Injective, NonEmptyTargets, Resolves, Referenced, ImportedRef, ImportNode;
    hide Target, ActiveRef;
    hide ImportedRefs;
    ActiveParts(p, StageKind, ref);
    ActiveRefFollows(ids, p, StageKind, ref);
    ReferenceFollowsImport(ids, p, StageKind, ref);
    ReferenceFollowsImport(ids, p, BlockKind, o.block);
    ImportFacts(ids, Referenced(p, StageKind, ref));
  }

  lemma ActiveParts(p: Plan, k: Kind, ref: NodeRef)
    ensures ActiveRef(p, k, ref) ==> Resolves(p, k, ref)
  {
  }

  lemma TaskRefFollows(ids: IdMap, p: Plan, o: Outline, ref: NodeRef)
    requires Canonical(p) && PlanMapped(ids, p) && Injective(ids) && NonEmptyTargets(ids)
    requires TaskOwned(p, o, ref) && forall s | s in o.stages :: Resolves(p, StageKind, s)
    ensures TaskOwned(Imported(ids, p), ImportedOutline(ids, Imported(ids, p), o), ImportedRef(ids, Imported(ids, p), TaskKind, ref))
  {
    hide Imported, Canonical, PlanMapped, Injective, NonEmptyTargets, Resolves, Referenced, ImportedRef, ImportNode;
    hide Target, ActiveRef;
    ActiveParts(p, TaskKind, ref);
    ActiveRefFollows(ids, p, TaskKind, ref);
    ReferenceFollowsImport(ids, p, TaskKind, ref);
    ImportFacts(ids, Referenced(p, TaskKind, ref));
    var i :| 0 <= i < |o.stages| && o.stages[i].id == Referenced(p, TaskKind, ref).body.stageId;
    assert o.stages[i] in o.stages;
    ReferenceFollowsImport(ids, p, StageKind, o.stages[i]);
    var imported := ImportedOutline(ids, Imported(ids, p), o);
    assert imported.stages[i] in imported.stages;
  }

  lemma DistinctRefsFollow(ids: IdMap, p: Plan, k: Kind, refs: seq<NodeRef>)
    requires Canonical(p) && PlanMapped(ids, p) && Injective(ids) && NonEmptyTargets(ids)
    requires RefsDistinct(refs) && forall r | r in refs :: Resolves(p, k, r)
    ensures RefsDistinct(ImportedRefs(ids, Imported(ids, p), k, refs)) && RefsMapped(ids, k, refs)
  {
    hide Imported, Canonical, PlanMapped, Injective, NonEmptyTargets, Resolves, Referenced, ImportedRef, ImportNode;
    hide Target, HasTarget;
    forall i | 0 <= i < |refs|
      ensures HasTarget(ids, k, refs[i].id)
      ensures ImportedRef(ids, Imported(ids, p), k, refs[i]).id == Target(ids, k, refs[i].id)
    {
      assert refs[i] in refs;
      ReferenceFollowsImport(ids, p, k, refs[i]);
    }
    forall i, j | 0 <= i < j < |refs|
      ensures Target(ids, k, refs[i].id) != Target(ids, k, refs[j].id)
    {
      TargetsDiffer(ids, k, refs[i].id, k, refs[j].id);
    }
  }

  lemma SliceResolves(o: Outline, p: Plan)
    requires SliceOk(o, p)
    ensures Resolves(p, VolumeKind, o.volume) && Resolves(p, BlockKind, o.block)
    ensures forall r | r in o.stages :: Resolves(p, StageKind, r)
    ensures forall r | r in o.tasks :: Resolves(p, TaskKind, r)
  {
    hide Resolves, Referenced;
    forall r | r in o.stages
      ensures Resolves(p, StageKind, r)
    {
      assert StageOwned(p, o, r);
    }
    forall r | r in o.tasks
      ensures Resolves(p, TaskKind, r)
    {
      assert TaskOwned(p, o, r);
    }
  }

  /** An outline passing its checks before the import is mapped and passes them after it. */
  lemma OutlineFollowsImport(ids: IdMap, p: Plan, o: Outline)
    requires Canonical(p) && PlanMapped(ids, p) && Injective(ids) && NonEmptyTargets(ids)
    requires SliceOk(o, p)
    ensures OutlineMapped(ids, o)
    ensures SliceOk(ImportedOutline(ids, Imported(ids, p), o), Imported(ids, p))
  {
    hide Imported, Canonical, PlanMapped, Injective, NonEmptyTargets, Resolves, Referenced, ImportedRef, ImportNode;
    hide HasTarget, Target;
    hide StageOwned, TaskOwned, RefsDistinct, RefsMapped, ActiveRef;
    var q := Imported(ids, p);
    var r := ImportedOutline(ids, q, o);
    SliceResolves(o, p);
    ActiveRefFollows(ids, p, VolumeKind, o.volume);
    ActiveRefFollows(ids, p, BlockKind, o.block);
    ActiveParts(q, BlockKind, r.block);
    DistinctRefsFollow(ids, p, StageKind, o.stages);
    DistinctRefsFollow(ids, p, TaskKind, o.tasks);
    ReferenceFollowsImport(ids, p, VolumeKind, o.volume);
    ReferenceFollowsImport(ids, p, BlockKind, o.block);
    ImportFacts(ids, Referenced(p, BlockKind, o.block));
    ImportedActiveBlock(ids, p);
    forall i | 0 <= i < |o.stages|
      ensures StageOwned(q, r, r.stages[i])
    {
      assert o.stages[i] in o.stages;
      StageRefFollows(ids, p, o, o.stages[i]);
    }
    forall i | 0 <= i < |o.tasks|
      ensures TaskOwned(q, r, r.tasks[i])
    {
      assert o.tasks[i] in o.tasks;
      TaskRefFollows(ids, p, o, o.tasks[i]);
    }
  }

  lemma ImportedActiveBlock(ids: IdMap, p: Plan)
    ensures p.activeBlock.Some? ==> Imported(ids, p).activeBlock == Some(Target(ids, BlockKind, p.activeBlock.value))
  {
    hide PassAll, PassBlocks;
  }

  // ----- slot by slot -----

  /** The reference gets the id the map gives its own under the type, keeps its revision, and is pinned to the node of that id. */
  predicate RefMoved(ids: IdMap, q: Plan, key: string, ref: NodeRef, r: NodeRef) {
    && (key, ref.id) in ids && r.id == ids[(key, ref.id)] && r.revision == ref.revision
    && (forall n | n in Nodes(q) && n.id == r.id :: r.hash == n.hash)
    && ((forall n | n in Nodes(q) :: n.id != r.id) ==> r.hash == ref.hash)
  }

  predicate RefsMoved(ids: IdMap, q: Plan, key: string, refs: seq<NodeRef>, rs: seq<NodeRef>) {
    |rs| == |refs| && forall i | 0 <= i < |refs| :: RefMoved(ids, q, key, refs[i], rs[i])
  }

  lemma OneRefMoved(ids: IdMap, q: Plan, k: Kind, ref: NodeRef)
    requires IdsOk(Nodes(q)) && HasTarget(ids, k, ref.id)
    ensures RefMoved(ids, q, TypeName(k), ref, ImportedRef(ids, q, k, ref))
  {
    hide Nodes, IdsOk, TypeName;
    var r := ImportedRef(ids, q, k, ref);
    NodeMapKeys(Nodes(q), r.id);
    forall n | n in Nodes(q) && n.id == r.id
      ensures r.hash == n.hash
    {
      NodeMapOf(Nodes(q), n);
    }
  }

  /** Every reference of an imported outline, at its own place. */
  lemma OutlineMoved(ids: IdMap, q: Plan, o: Outline)
    requires IdsOk(Nodes(q))
    ensures OutlineMapped(ids, o) <==>
              && ("planning-volume", o.volume.id) in ids && ("story-block", o.block.id) in ids
              && (forall i | 0 <= i < |o.stages| :: ("planning-stage", o.stages[i].id) in ids)
              && (forall i | 0 <= i < |o.tasks| :: ("scene-task", o.tasks[i].id) in ids)
    ensures OutlineMapped(ids, o) ==>
              var r := ImportedOutline(ids, q, o);
              && RefMoved(ids, q, "planning-volume", o.volume, r.volume) && RefMoved(ids, q, "story-block", o.block, r.block)
              && RefsMoved(ids, q, "planning-stage", o.stages, r.stages) && RefsMoved(ids, q, "scene-task", o.tasks, r.tasks)
  {
    hide Nodes, IdsOk, RefMoved, ImportedRef;
    MappedByPlace(ids, StageKind, o.stages);
    MappedByPlace(ids, TaskKind, o.tasks);
    if OutlineMapped(ids, o) {
      OneRefMoved(ids, q, VolumeKind, o.volume);
      OneRefMoved(ids, q, BlockKind, o.block);
      forall i | 0 <= i < |o.stages|
        ensures RefMoved(ids, q, "planning-stage", o.stages[i], ImportedRefs(ids, q, StageKind, o.stages)[i])
      {
        OneRefMoved(ids, q, StageKind, o.stages[i]);
      }
      forall i | 0 <= i < |o.tasks|
        ensures RefMoved(ids, q, "scene-task", o.tasks[i], ImportedRefs(ids, q, TaskKind, o.tasks)[i])
      {
        OneRefMoved(ids, q, TaskKind, o.tasks[i]);
      }
    }
  }

  lemma MappedByPlace(ids: IdMap, k: Kind, refs: seq<NodeRef>)
    ensures RefsMapped(ids, k, refs) <==> forall i | 0 <= i < |refs| :: (TypeName(k), refs[i].id) in ids
  {
    hide TypeName;
    assert RefsMapped(ids, k, refs) <==> forall i | 0 <= i < |refs| :: HasTarget(ids, k, refs[i].id);
  }
}
