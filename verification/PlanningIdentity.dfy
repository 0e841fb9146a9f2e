/** What an accepted draft says about each of its nodes: current, or new under a new id, and revised by the rule. */
module PlanningIdentity {
  import opened Wrappers
  import opened Planning
  import opened PlanningClosed
  import opened PlanningFixedPoint

  /** The last version of a node: the previous draft's if it is there, else the confirmed one. */
  predicate LastVersion(confirmed: Option<Plan>, previous: Option<Plan>, n: Node) {
    || (previous.Some? && n in Nodes(previous.value))
    || (confirmed.Some? && n in Nodes(confirmed.value) && (previous.Some? ==> !Names(Nodes(previous.value), n.id)))
  }

  predicate Unknown(p: Option<Plan>, id: string) { p.Some? ==> !Names(Nodes(p.value), id) }

  lemma BaselineIsLast(c: Context, confirmed: Option<Plan>, previous: Option<Plan>, id: string)
    requires c.confirmed == PlanMap(confirmed) && c.previous == PlanMap(previous)
    ensures Baseline(c, id).Some? ==> LastVersion(confirmed, previous, Baseline(c, id).value) && Baseline(c, id).value.id == id
    ensures Baseline(c, id).None? ==> Unknown(confirmed, id) && Unknown(previous, id)
  {
    hide Nodes;
    if previous.Some? {
      NodeMapKeys(Nodes(previous.value), id);
    }
    if confirmed.Some? {
      NodeMapKeys(Nodes(confirmed.value), id);
    }
  }

  lemma AcceptedParts(d: DraftPlan, confirmed: Option<Plan>, previous: Option<Plan>, factory: nat -> string, i: nat)
    requires Accepts(d, confirmed, previous, factory) && i < |PlacedNodes(d)|
    ensures var ps := PlacedNodes(d);
            var id := Assigned(ps, factory)[i];
            && RefsOk(ps)
            && IdentityOk(ContextOf(d, confirmed, previous, factory), ps[i].node, id)
            && (ps[i].node.identity.Fresh? ==> id != "" && !IsClientKey(ps, id) && id !in PlanMap(confirmed) && id !in PlanMap(previous))
  {
    hide PlacedNodes, RefsOk, OrdersOk, BlockRelationsOk, ActiveOk, IdentityOk, Resolved, PlanMap, IsClientKey;
    hide Distinct, Assigned;
  }

  /** Optimistic locking: an accepted draft names every existing node at its last revision and hash, as the kind it is. */
  lemma AcceptedNodesAreCurrent(d: DraftPlan, confirmed: Option<Plan>, previous: Option<Plan>, factory: nat -> string, i: nat)
    requires Normalize(d, confirmed, previous, factory).Success? && i < |PlacedNodes(d)|
    requires PlacedNodes(d)[i].node.identity.Existing?
    ensures var x := PlacedNodes(d)[i].node;
            exists n :: LastVersion(confirmed, previous, n) && n.id == x.identity.id && n.revision == x.identity.revision
                        && n.hash == x.identity.hash && KindOf(n.body) == DraftKind(x.body)
  {
    hide PlacedNodes, Accepts, LastVersion, Assigned, Resolved, PlanMap, FormalPlan;
    var c := ContextOf(d, confirmed, previous, factory);
    var x := PlacedNodes(d)[i].node;
    AcceptedParts(d, confirmed, previous, factory, i);
    AssignedIs(PlacedNodes(d), factory, i);
    BaselineIsLast(c, confirmed, previous, x.identity.id);
    assert LastVersion(confirmed, previous, Baseline(c, x.identity.id).value);
  }

  /** A new node gets an id that is not empty, names nothing before it and is nobody's client key. */
  lemma NewNodesGetNewIds(d: DraftPlan, confirmed: Option<Plan>, previous: Option<Plan>, factory: nat -> string, i: nat)
    requires Normalize(d, confirmed, previous, factory).Success? && i < |PlacedNodes(d)|
    requires PlacedNodes(d)[i].node.identity.Fresh?
    ensures |Nodes(Normalize(d, confirmed, previous, factory).value)| == |PlacedNodes(d)|
    ensures var n := Nodes(Normalize(d, confirmed, previous, factory).value)[i];
            && n.id != "" && n.revision == 1 && !IsClientKey(PlacedNodes(d), n.id)
            && Unknown(confirmed, n.id) && Unknown(previous, n.id)
  {
    hide PlacedNodes, Nodes, Accepts, Assigned, Resolved, PlanMap, FormalPlan, IsClientKey, IdentityOk, Unknown;
    hide LastVersion, RefsOk;
    hide FormalBody;
    var c := ContextOf(d, confirmed, previous, factory);
    AcceptedParts(d, confirmed, previous, factory, i);
    FormalIds(d, confirmed, previous, factory);
    BaselineIsLast(c, confirmed, previous, Assigned(PlacedNodes(d), factory)[i]);
  }

  /** Place by place the result carries the draft's content, and a known node's revision counts whether its payload changed. */
  lemma ResultMirrorsDraft(d: DraftPlan, confirmed: Option<Plan>, previous: Option<Plan>, factory: nat -> string, i: nat)
    requires Normalize(d, confirmed, previous, factory).Success? && i < |PlacedNodes(d)|
    ensures |Nodes(Normalize(d, confirmed, previous, factory).value)| == |PlacedNodes(d)|
    ensures var n := Nodes(Normalize(d, confirmed, previous, factory).value)[i];
            var x := PlacedNodes(d)[i].node;
            && n.lifecycle == x.lifecycle && n.order == x.order && n.body.fields == x.body.fields && KindOf(n.body) == DraftKind(x.body)
            && n.hash == NodeDigest(PayloadOf(n))
            && (x.identity.Existing? ==>
                  && n.id == x.identity.id
                  && n.revision == x.identity.revision + (if n.hash == x.identity.hash then 0 else 1))
  {
    hide PlacedNodes, Nodes, Accepts, Assigned, Resolved, PlanMap, FormalPlan, RefsOk, Resolve, ResolveAll;
    var c := ContextOf(d, confirmed, previous, factory);
    AcceptedParts(d, confirmed, previous, factory, i);
    FormalIds(d, confirmed, previous, factory);
    AssignedIs(PlacedNodes(d), factory, i);
    FormalContent(c, PlacedNodes(d)[i].node, PlacedNodes(d)[i].parent);
  }

  lemma FormalContent(c: Context, d: DraftNode, parent: string)
    ensures var n := FormalNode(c, d, parent);
            && n.lifecycle == d.lifecycle && n.order == d.order && n.body.fields == d.body.fields && KindOf(n.body) == DraftKind(d.body)
            && n.hash == NodeDigest(PayloadOf(n))
  {
  }

  /** A reference becomes the id of the very node it names, wherever in the draft that node stands. */
  lemma ReferencesResolve(d: DraftPlan, confirmed: Option<Plan>, previous: Option<Plan>, factory: nat -> string, i: nat, j: nat)
    requires Normalize(d, confirmed, previous, factory).Success? && i < |PlacedNodes(d)| && j < |PlacedNodes(d)|
    ensures |Nodes(Normalize(d, confirmed, previous, factory).value)| == |PlacedNodes(d)|
    ensures var nodes := Nodes(Normalize(d, confirmed, previous, factory).value);
            var q, named := PlacedNodes(d)[i], Ref(PlacedNodes(d)[j].node);
            && (q.node.body.DraftBlock? && q.node.body.volumeRef == named ==> nodes[i].body.BlockBody? && nodes[i].body.volumeId == nodes[j].id)
            && (q.node.body.DraftBlock? ==>
                  && nodes[i].body.BlockBody? && |nodes[i].body.plotIds| == |q.node.body.plotRefs|
                  && forall k | 0 <= k < |q.node.body.plotRefs| && q.node.body.plotRefs[k] == named :: nodes[i].body.plotIds[k] == nodes[j].id)
            && (q.node.body.DraftStage? && q.parent == named ==> nodes[i].body.StageBody? && nodes[i].body.blockId == nodes[j].id)
            && (q.node.body.DraftTask? && q.parent == named ==> nodes[i].body.TaskBody? && nodes[i].body.stageId == nodes[j].id)
    ensures var p := Normalize(d, confirmed, previous, factory).value;
            && (d.activeRef.None? ==> p.activeBlock.None?)
            && (d.activeRef == Some(Ref(PlacedNodes(d)[j].node)) ==> p.activeBlock == Some(Nodes(p)[j].id))
  {
    hide PlacedNodes, Nodes, Accepts, Assigned, Resolved, PlanMap, FormalPlan, RefsOk, Resolve, IdentityOk;
    AcceptedParts(d, confirmed, previous, factory, i);
    FormalIds(d, confirmed, previous, factory);
    FormalActiveIs(ContextOf(d, confirmed, previous, factory), d);
  }

  lemma FormalActiveIs(c: Context, d: DraftPlan)
    ensures FormalPlan(c, d).activeBlock == if d.activeRef.Some? then Some(Resolve(c, d.activeRef.value)) else None
  {
    hide FormalNodes, FormalBlocks;
  }
}
