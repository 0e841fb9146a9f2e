/** Field patches confirmed with a finalised chapter, and what they leave alone. */
module PlanningPatches {
  import opened Wrappers
  import opened Planning
  import opened PlanningClosed
  import opened PlanningFixedPoint
  import opened PlanningNormalizer

  datatype Patch = Patch(kind: Kind, targetId: string, expectedRevision: nat, expectedHash: NodeHash, fieldPath: string,
                         replacement: FieldValue)

  datatype PatchError = Implemented | Missing | Stale | Invalid

  /** Whether the draft's field types take a value. */
  type FieldRule = (Kind, string, FieldValue) -> bool

  const VOLUME_FIELDS := {"title", "coreChange", "mainPressure", "ensembleFocus", "forbiddenEvents"}
  const PLOT_FIELDS := {"title", "storyQuestion", "futureDirection", "expectedPayoff", "relatedCharacters"}
  const BLOCK_FIELDS := {"title", "entrySituation", "blockGoal", "mainPressure", "expectedChange", "openQuestions", "involvedCharacters"}
  const STAGE_FIELDS := {"title", "purpose", "dramaticQuestion"}
  const TASK_FIELDS := {"task", "completionEvidence"}

  /** The fields a patch may name. */
  function PatchableFields(k: Kind): set<string> {
    match k
    case VolumeKind => VOLUME_FIELDS
    case PlotKind => PLOT_FIELDS
    case BlockKind => BLOCK_FIELDS
    case StageKind => STAGE_FIELDS
    case TaskKind => TASK_FIELDS
  }

  predicate WellFormed(q: Patch) { q.fieldPath in PatchableFields(q.kind) }

  // ----- nodes of one kind -----

  function OfKind(nodes: seq<Node>, k: Kind): seq<Node> {
    if nodes == [] then []
    else
      var rest := OfKind(nodes[..|nodes| - 1], k);
      var last := nodes[|nodes| - 1];
      if KindOf(last.body) == k then rest + [last] else rest
  }

  /** The dictionary of the nodes of one kind. */
  function Level(p: Plan, k: Kind): map<string, Node> { NodeMap(OfKind(Nodes(p), k)) }

  lemma {:induction false} OfKindHas(nodes: seq<Node>, k: Kind, n: Node)
    ensures n in OfKind(nodes, k) <==> n in nodes && KindOf(n.body) == k
  {
    if nodes != [] {
      OfKindHas(nodes[..|nodes| - 1], k, n);
      assert nodes == nodes[..|nodes| - 1] + [nodes[|nodes| - 1]];
    }
  }

  lemma LevelHas(p: Plan, k: Kind, n: Node)
    requires IdsOk(Nodes(p)) && n in Nodes(p) && KindOf(n.body) == k
    ensures n.id in Level(p, k) && Level(p, k)[n.id] == n
  {
    hide Nodes, OfKind, NodeMap;
    OfKindHas(Nodes(p), k, n);
    NodeMapKeys(OfKind(Nodes(p), k), n.id);
    var m := Level(p, k)[n.id];
    OfKindHas(Nodes(p), k, m);
    assert m.id == n.id && m in Nodes(p);
  }

  lemma LevelIs(p: Plan, k: Kind, id: string)
    requires id in Level(p, k)
    ensures Level(p, k)[id] in Nodes(p) && Level(p, k)[id].id == id && KindOf(Level(p, k)[id].body) == k
  {
    hide Nodes, OfKind, NodeMap;
    NodeMapKeys(OfKind(Nodes(p), k), id);
    OfKindHas(Nodes(p), k, Level(p, k)[id]);
  }

  // ----- applying -----

  /** Why a patch is refused, if it is. */
  function Refusal(p: Plan, q: Patch, implemented: set<string>): Option<PatchError> {
    if q.targetId in implemented then Some(Implemented)
    else if q.targetId !in Level(p, q.kind) then Some(Missing)
    else if Level(p, q.kind)[q.targetId].revision != q.expectedRevision
         || Level(p, q.kind)[q.targetId].hash != q.expectedHash then Some(Stale)
    else None
  }

  function FirstRefusal(p: Plan, patches: seq<Patch>, implemented: set<string>): Option<PatchError> {
    if patches == [] then None
    else
      var before := FirstRefusal(p, patches[..|patches| - 1], implemented);
      if before.Some? then before else Refusal(p, patches[|patches| - 1], implemented)
  }

  /** The new fields of every patched node; a later patch of one field wins. */
  function Patched(p: Plan, patches: seq<Patch>): Edits {
    if patches == [] then map[]
    else
      var before := Patched(p, patches[..|patches| - 1]);
      var q := patches[|patches| - 1];
      if q.targetId in Level(p, q.kind)
      then before[q.targetId := FieldsOf(Level(p, q.kind)[q.targetId], before)[q.fieldPath := q.replacement]]
      else before
  }

  predicate FieldsFit(k: Kind, fields: Fields, fits: FieldRule) { forall f | f in fields :: fits(k, f, fields[f]) }

  predicate EditsFit(p: Plan, edits: Edits, fits: FieldRule) {
    forall n | n in Nodes(p) :: FieldsFit(KindOf(n.body), FieldsOf(n, edits), fits)
  }

  function ApplyPatches(p: Plan, patches: seq<Patch>, implemented: set<string>, fits: FieldRule): Result<Plan, PatchError> {
    if patches == [] then Success(p)
    else if FirstRefusal(p, patches, implemented).Some? then Failure(FirstRefusal(p, patches, implemented).value)
    else if !EditsFit(p, Patched(p, patches), fits) then Failure(Invalid)
    else
      match Normalize(Editable(p, Patched(p, patches)), Some(p), None, _ => "")
      case Success(q) => Success(q)
      case Failure(_) => Failure(Invalid)
  }

  method NodesByType(p: Plan) returns (nodes: map<(Kind, string), Node>)
    ensures forall k, id :: (k, id) in nodes <==> id in Level(p, k)
    ensures forall k, id :: (k, id) in nodes ==> nodes[(k, id)] == Level(p, k)[id]
  {
    hide Nodes, NodeMap, OfKind;
    var walk := Nodes(p);
    nodes := map[];
    EmptyLevels();
    assert walk[..0] == [];
    for i := 0 to |walk|
      invariant forall k, id :: (k, id) in nodes <==> id in NodeMap(OfKind(walk[..i], k))
      invariant forall k, id :: (k, id) in nodes ==> nodes[(k, id)] == NodeMap(OfKind(walk[..i], k))[id]
    {
      forall k: Kind | true
        ensures NodeMap(OfKind(walk[..i + 1], k)) ==
                  if KindOf(walk[i].body) == k then NodeMap(OfKind(walk[..i], k))[walk[i].id := walk[i]]
                  else NodeMap(OfKind(walk[..i], k))
      {
        LevelStep(walk, i, k);
      }
      nodes := nodes[(KindOf(walk[i].body), walk[i].id) := walk[i]];
    }
    assert walk[..|walk|] == walk;
  }

  lemma EmptyLevels()
    ensures forall k :: NodeMap(OfKind([], k)) == map[]
  {
  }

  lemma LevelStep(walk: seq<Node>, i: nat, k: Kind)
    requires i < |walk|
    ensures NodeMap(OfKind(walk[..i + 1], k)) ==
              if KindOf(walk[i].body) == k then NodeMap(OfKind(walk[..i], k))[walk[i].id := walk[i]]
              else NodeMap(OfKind(walk[..i], k))
  {
    assert walk[..i + 1][..i] == walk[..i];
    var rest := OfKind(walk[..i], k);
    if KindOf(walk[i].body) == k {
      assert OfKind(walk[..i + 1], k) == rest + [walk[i]];
      assert (rest + [walk[i]])[..|rest|] == rest;
    }
  }

  method ApplyPlanningPatches(p: Plan, patches: seq<Patch>, implemented: set<string>, fits: FieldRule)
    returns (r: Result<Plan, PatchError>)
    ensures r == ApplyPatches(p, patches, implemented, fits)
  {
    hide Level, Nodes, Normalize, Editable, EditsFit, FirstRefusal, Patched;
    if patches == [] {
      return Success(p);
    }
    var nodes := NodesByType(p);
    var edits: Edits := map[];
    NothingPatched(p, implemented);
    assert patches[..0] == [];
    for i := 0 to |patches|
      invariant FirstRefusal(p, patches[..i], implemented).None?
      invariant edits == Patched(p, patches[..i])
    {
      var q := patches[i];
      PatchStep(p, patches, implemented, i);
      if q.targetId in implemented {
        StaysRefused(p, patches, implemented, i + 1);
        return Failure(Implemented);
      }
      if (q.kind, q.targetId) !in nodes {
        StaysRefused(p, patches, implemented, i + 1);
        return Failure(Missing);
      }
      var node := nodes[(q.kind, q.targetId)];
      if node.revision != q.expectedRevision || node.hash != q.expectedHash {
        StaysRefused(p, patches, implemented, i + 1);
        return Failure(Stale);
      }
      edits := edits[q.targetId := FieldsOf(node, edits)[q.fieldPath := q.replacement]];
    }
    assert patches[..|patches|] == patches;
    if !EditsFit(p, edits, fits) {
      return Failure(Invalid);
    }
    var normalized := NormalizePlanningAggregate(Editable(p, edits), Some(p), None, _ => "");
    match normalized
    case Success(q) => r := Success(q);
    case Failure(_) => r := Failure(Invalid);
  }

  lemma NothingPatched(p: Plan, implemented: set<string>)
    ensures FirstRefusal(p, [], implemented).None? && Patched(p, []) == map[]
  {
  }

  lemma PatchStep(p: Plan, patches: seq<Patch>, implemented: set<string>, i: nat)
    requires i < |patches|
    ensures FirstRefusal(p, patches[..i + 1], implemented) ==
              if FirstRefusal(p, patches[..i], implemented).Some? then FirstRefusal(p, patches[..i], implemented)
              else Refusal(p, patches[i], implemented)
    ensures patches[i].targetId in Level(p, patches[i].kind) ==>
              Patched(p, patches[..i + 1]) ==
                var before := Patched(p, patches[..i]);
                before[patches[i].targetId :=
                         FieldsOf(Level(p, patches[i].kind)[patches[i].targetId], before)[patches[i].fieldPath := patches[i].replacement]]
  {
    hide Level, Refusal;
    assert patches[..i + 1][..i] == patches[..i];
  }

  lemma {:induction false} StaysRefused(p: Plan, patches: seq<Patch>, implemented: set<string>, n: nat)
    requires n <= |patches| && FirstRefusal(p, patches[..n], implemented).Some?
    ensures FirstRefusal(p, patches, implemented) == FirstRefusal(p, patches[..n], implemented)
  {
    hide Refusal;
    if n < |patches| {
      assert patches[..|patches| - 1][..n] == patches[..n];
      StaysRefused(p, patches[..|patches| - 1], implemented, n);
    } else {
      assert patches[..n] == patches;
    }
  }

  // ----- when patches are accepted, and what they then do -----

  /** The last value a patch list gives a field of a node. */
  function LastValue(patches: seq<Patch>, id: string, field: string): Option<FieldValue> {
    if patches == [] then None
    else if patches[|patches| - 1].targetId == id && patches[|patches| - 1].fieldPath == field
    then Some(patches[|patches| - 1].replacement)
    else LastValue(patches[..|patches| - 1], id, field)
  }

  predicate Targets(patches: seq<Patch>, id: string) { exists q | q in patches :: q.targetId == id }

  lemma {:induction false} NoRefusal(p: Plan, patches: seq<Patch>, implemented: set<string>)
    ensures FirstRefusal(p, patches, implemented).None? <==> forall q | q in patches :: Refusal(p, q, implemented).None?
  {
    hide Refusal;
    if patches != [] {
      NoRefusal(p, patches[..|patches| - 1], implemented);
      assert patches == patches[..|patches| - 1] + [patches[|patches| - 1]];
    }
  }

  /** A patched field holds its last replacement, every other field what it held. */
  lemma {:induction false} PatchedFields(p: Plan, patches: seq<Patch>, n: Node, field: string)
    requires IdsOk(Nodes(p)) && n in Nodes(p)
    requires forall q | q in patches :: q.targetId in Level(p, q.kind)
    ensures var f := FieldsOf(n, Patched(p, patches));
            match LastValue(patches, n.id, field)
            case Some(v) => field in f && f[field] == v
            case None => (field in f <==> field in n.body.fields) && (field in f ==> f[field] == n.body.fields[field])
  {
    hide Nodes, IdsOk, Level;
    if patches != [] {
      var rest := patches[..|patches| - 1];
      var q := patches[|patches| - 1];
      assert q in patches;
      assert forall x | x in rest :: x in patches;
      PatchedFields(p, rest, n, field);
      if q.targetId == n.id {
        SameTarget(p, q, n);
      }
    }
  }

  lemma SameTarget(p: Plan, q: Patch, n: Node)
    requires IdsOk(Nodes(p)) && n in Nodes(p)
    requires q.targetId in Level(p, q.kind) && q.targetId == n.id
    ensures Level(p, q.kind)[q.targetId] == n
  {
    hide Nodes, Level;
    LevelIs(p, q.kind, q.targetId);
  }

  lemma {:induction false} UntargetedUnedited(p: Plan, patches: seq<Patch>, id: string)
    requires !Targets(patches, id)
    ensures id !in Patched(p, patches)
  {
    hide Level;
    if patches != [] {
      var rest := patches[..|patches| - 1];
      assert patches[|patches| - 1] in patches;
      assert forall x | x in rest :: x in patches;
      UntargetedUnedited(p, rest, id);
    }
  }

  /** The relations of a node to other nodes. */
  predicate SameRelations(a: Node, b: Node) {
    a.id == b.id && a.lifecycle == b.lifecycle && a.order == b.order && a.body == b.body.(fields := a.body.fields)
  }

  /** A patch list is accepted exactly when no patch is refused and the new fields fit their types. */
  lemma PatchesAccepted(p: Plan, patches: seq<Patch>, implemented: set<string>, fits: FieldRule)
    requires Canonical(p)
    ensures ApplyPatches(p, patches, implemented, fits).Success? <==>
              patches == [] || ((forall q | q in patches :: Refusal(p, q, implemented).None?) && EditsFit(p, Patched(p, patches), fits))
    ensures ApplyPatches(p, patches, implemented, fits).Success? ==>
              ApplyPatches(p, patches, implemented, fits).value == Revised(p, Patched(p, patches))
  {
    hide Nodes, Refusal, EditsFit, Editable, Normalize, Revised, Shaped, LevelsOk, BlockClosed, ActiveClosed, IdsOk;
    hide HashesOk, Latest;
    NoRefusal(p, patches, implemented);
    LatestForItself(p, None);
    EditsReviseNodeByNode(p, Patched(p, patches), Some(p), None, _ => "");
    UnchangedPlan(p);
  }

  lemma ReviseConcat(a: seq<Node>, b: seq<Node>, edits: Edits)
    ensures ReviseAll(a + b, edits) == ReviseAll(a, edits) + ReviseAll(b, edits)
  {
    hide Revise;
  }

  lemma {:induction false} StagesRevised(stages: seq<Stage>, edits: Edits)
    ensures StageNodes(ReviseStages(stages, edits)) == ReviseAll(StageNodes(stages), edits)
  {
    if stages != [] {
      hide Revise;
      var s := stages[0];
      StagesRevised(stages[1..], edits);
      assert ReviseStages(stages, edits)[1..] == ReviseStages(stages[1..], edits);
      assert [Revise(s.node, edits)] == ReviseAll([s.node], edits);
      ReviseConcat([s.node], s.tasks, edits);
      ReviseConcat([s.node] + s.tasks, StageNodes(stages[1..]), edits);
    }
  }

  lemma {:induction false} BlocksRevised(blocks: seq<StoryBlock>, edits: Edits)
    ensures BlockNodes(ReviseBlocks(blocks, edits)) == ReviseAll(BlockNodes(blocks), edits)
  {
    if blocks != [] {
      hide Revise;
      var b := blocks[0];
      BlocksRevised(blocks[1..], edits);
      assert ReviseBlocks(blocks, edits)[1..] == ReviseBlocks(blocks[1..], edits);
      StagesRevised(b.stages, edits);
      assert [Revise(b.node, edits)] == ReviseAll([b.node], edits);
      ReviseConcat([b.node], StageNodes(b.stages), edits);
      ReviseConcat([b.node] + StageNodes(b.stages), BlockNodes(blocks[1..]), edits);
    }
  }

  /** The walk over the revised aggregate is the walk over the old one, revised. */
  lemma NodesRevised(p: Plan, edits: Edits)
    ensures Nodes(Revised(p, edits)) == ReviseAll(Nodes(p), edits)
  {
    hide Revise;
    BlocksRevised(p.blocks, edits);
    ReviseConcat(p.volumes, p.plots, edits);
    ReviseConcat(p.volumes + p.plots, BlockNodes(p.blocks), edits);
  }

  /** Every node keeps its place, id, kind, lifecycle, order and relations; only a targeted one may change, by one revision iff its fields changed. */
  lemma PatchesAreLocal(p: Plan, patches: seq<Patch>, implemented: set<string>, fits: FieldRule, i: nat)
    requires Canonical(p) && ApplyPatches(p, patches, implemented, fits).Success? && i < |Nodes(p)|
    ensures var r := ApplyPatches(p, patches, implemented, fits).value;
            var n := Nodes(p)[i];
            && |Nodes(r)| == |Nodes(p)|
            && r.activeBlock == p.activeBlock
            && SameRelations(Nodes(r)[i], n)
            && (!Targets(patches, n.id) ==> Nodes(r)[i] == n)
            && (n.id in implemented ==> Nodes(r)[i] == n)
            && Nodes(r)[i].revision == (if Nodes(r)[i].body.fields != n.body.fields then n.revision + 1 else n.revision)
            && (Nodes(r)[i].body.fields == n.body.fields ==> Nodes(r)[i] == n)
  {
    hide Nodes, Refusal, EditsFit, ApplyPatches, Shaped, LevelsOk, BlockClosed, ActiveClosed, IdsOk, ReviseBlocks;
    PatchesAccepted(p, patches, implemented, fits);
    var edits := Patched(p, patches);
    NodesRevised(p, edits);
    var n := Nodes(p)[i];
    assert n in Nodes(p);
    assert n.hash == NodeDigest(PayloadOf(n));
    assert Nodes(Revised(p, edits))[i] == Revise(n, edits);
    if n.id in implemented {
      ImplementedUntargeted(p, patches, implemented, n.id);
    }
    if !Targets(patches, n.id) {
      UntargetedUnedited(p, patches, n.id);
    }
    RevisedOnce(n, edits);
  }

  lemma ImplementedUntargeted(p: Plan, patches: seq<Patch>, implemented: set<string>, id: string)
    requires patches == [] || forall q | q in patches :: Refusal(p, q, implemented).None?
    requires id in implemented
    ensures !Targets(patches, id)
  {
  }

  lemma RevisedOnce(n: Node, edits: Edits)
    requires n.hash == NodeDigest(PayloadOf(n))
    ensures var r := Revise(n, edits);
            && SameRelations(r, n)
            && r.revision == (if r.body.fields != n.body.fields then n.revision + 1 else n.revision)
            && (r.body.fields == n.body.fields ==> r == n)
  {
  }

  /** What a field of a node holds after the patches: the last replacement, or what it held before. */
  lemma PatchesWriteLastValues(p: Plan, patches: seq<Patch>, implemented: set<string>, fits: FieldRule, i: nat, field: string)
    requires Canonical(p) && ApplyPatches(p, patches, implemented, fits).Success? && i < |Nodes(p)|
    ensures var r := ApplyPatches(p, patches, implemented, fits).value;
            && |Nodes(r)| == |Nodes(p)|
            && var f := Nodes(r)[i].body.fields;
               var was := Nodes(p)[i].body.fields;
               match LastValue(patches, Nodes(p)[i].id, field)
               case Some(v) => field in f && f[field] == v
               case None => (field in f <==> field in was) && (field in f ==> f[field] == was[field])
  {
    hide Nodes, EditsFit, ApplyPatches, Shaped, LevelsOk, BlockClosed, ActiveClosed, HashesOk, IdsOk, ReviseBlocks;
    hide Level, Patched, LastValue;
    PatchesAccepted(p, patches, implemented, fits);
    var edits := Patched(p, patches);
    NodesRevised(p, edits);
    var n := Nodes(p)[i];
    assert Nodes(Revised(p, edits))[i] == Revise(n, edits);
    PatchedFields(p, patches, n, field);
  }

  /** A patched aggregate is again closed, with true hashes. */
  lemma PatchedIsCanonical(p: Plan, patches: seq<Patch>, implemented: set<string>, fits: FieldRule)
    requires Canonical(p) && ApplyPatches(p, patches, implemented, fits).Success?
    ensures Canonical(ApplyPatches(p, patches, implemented, fits).value)
  {
    hide Nodes, Refusal, EditsFit, Editable, Normalize, Revised, Canonical, Latest, DraftShaped, Patched;
    PatchesAccepted(p, patches, implemented, fits);
    var edits := Patched(p, patches);
    CanonicalIds(p);
    CanonicalIsClosed(p);
    LatestForItself(p, None);
    EditsReviseNodeByNode(p, edits, Some(p), None, _ => "");
    EditableShaped(p, edits);
    NormalizedIsCanonical(Editable(p, edits), Some(p), None, _ => "");
  }

  lemma CanonicalIsClosed(p: Plan)
    requires Canonical(p)
    ensures ClosedPlan(p)
  {
    hide ClosedPlan, HashesOk;
  }

  lemma CanonicalIds(p: Plan)
    requires Canonical(p)
    ensures IdsOk(Nodes(p))
  {
    hide Nodes, Shaped, LevelsOk, BlockClosed, ActiveClosed, IdsOk, HashesOk;
  }

  lemma EditableKinds(ns: seq<Node>, k: Kind, edits: Edits)
    requires AllOfKind(ns, k)
    ensures AllOfDraftKind(EditableNodes(ns, edits), k)
  {
  }

  lemma EditableStageShaped(s: Stage, edits: Edits)
    requires KindOf(s.node.body) == StageKind && AllOfKind(s.tasks, TaskKind)
    ensures DraftKind(EditableStage(s, edits).node.body) == StageKind && AllOfDraftKind(EditableStage(s, edits).tasks, TaskKind)
  {
    hide AllOfKind, AllOfDraftKind;
    EditableKinds(s.tasks, TaskKind, edits);
  }

  lemma EditableShaped(p: Plan, edits: Edits)
    requires Canonical(p)
    ensures DraftShaped(Editable(p, edits))
  {
    hide Nodes, LevelsOk, BlockClosed, ActiveClosed, IdsOk, HashesOk, AllOfKind, AllOfDraftKind, EditableNodes;
    hide EditableStage;
    EditableKinds(p.volumes, VolumeKind, edits);
    EditableKinds(p.plots, PlotKind, edits);
    forall i, j | 0 <= i < |p.blocks| && 0 <= j < |p.blocks[i].stages|
      ensures var s := EditableStages(p.blocks[i].stages, edits)[j];
              DraftKind(s.node.body) == StageKind && AllOfDraftKind(s.tasks, TaskKind)
    {
      assert p.blocks[i] in p.blocks && p.blocks[i].stages[j] in p.blocks[i].stages;
      EditableStageShaped(p.blocks[i].stages[j], edits);
    }
  }
}
