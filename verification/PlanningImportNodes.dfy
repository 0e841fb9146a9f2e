/** What an import makes of every node, slot by slot: the ids at their literal keys, and the fields as they were. */
module PlanningImportNodes {
  import opened Wrappers
  import opened Planning
  import opened PlanningClosed
  import opened ImportIdentities
  import opened PlanningImport
  import opened PlanningImportGuarantees

  /** The id the map gives an id of a type. */
  predicate Gives(ids: IdMap, key: string, id: string, r: string) { (key, id) in ids && ids[(key, id)] == r }

  /** The entity of a plot's character design, if it names one. */
  function DesignEntity(fields: Fields): Option<string> {
    if "characterDesign" !in fields then None
    else
      match fields["characterDesign"]
      case Design(design) => design.entityId
      case _ => None
  }

  /** Every id slot of the node is in the map under its type. */
  predicate SlotsKnown(ids: IdMap, n: Node) {
    match n.body
    case VolumeBody(_) => ("planning-volume", n.id) in ids
    case PlotBody(f) =>
      ("planning-plot", n.id) in ids && (DesignEntity(f).Some? ==> ("canon-entity", DesignEntity(f).value) in ids)
    case BlockBody(volume, plots, _) =>
      && ("story-block", n.id) in ids && ("planning-volume", volume) in ids
      && forall k | 0 <= k < |plots| :: ("planning-plot", plots[k]) in ids
    case StageBody(block, _) => ("planning-stage", n.id) in ids && ("story-block", block) in ids
    case TaskBody(stage, _) => ("scene-task", n.id) in ids && ("planning-stage", stage) in ids
  }

  /** A plot keeps its fields, but for the entity of its character design, which the map renames. */
  predicate PlotFieldsMoved(ids: IdMap, f: Fields, g: Fields) {
    && g.Keys == f.Keys
    && (forall k | k in f && k != "characterDesign" :: g[k] == f[k])
    && (match DesignEntity(f)
        case None => g == f
        case Some(entity) =>
          && g["characterDesign"].Design? && f["characterDesign"].Design?
          && g["characterDesign"].design.displayName == f["characterDesign"].design.displayName
          && g["characterDesign"].design.nodes == f["characterDesign"].design.nodes
          && g["characterDesign"].design.entityId.Some?
          && Gives(ids, "canon-entity", entity, g["characterDesign"].design.entityId.value))
  }

  predicate BodyMoved(ids: IdMap, n: Node, m: Node) {
    match n.body
    case VolumeBody(f) => m.body == VolumeBody(f) && Gives(ids, "planning-volume", n.id, m.id)
    case PlotBody(f) => m.body.PlotBody? && PlotFieldsMoved(ids, f, m.body.fields) && Gives(ids, "planning-plot", n.id, m.id)
    case BlockBody(volume, plots, f) =>
      && m.body.BlockBody? && m.body.fields == f && Gives(ids, "story-block", n.id, m.id)
      && Gives(ids, "planning-volume", volume, m.body.volumeId)
      && |m.body.plotIds| == |plots|
      && forall k | 0 <= k < |plots| :: Gives(ids, "planning-plot", plots[k], m.body.plotIds[k])
    case StageBody(block, f) =>
      && m.body.StageBody? && m.body.fields == f && Gives(ids, "planning-stage", n.id, m.id)
      && Gives(ids, "story-block", block, m.body.blockId)
    case TaskBody(stage, f) =>
      && m.body.TaskBody? && m.body.fields == f && Gives(ids, "scene-task", n.id, m.id)
      && Gives(ids, "planning-stage", stage, m.body.stageId)
  }

  predicate NodeMoved(ids: IdMap, n: Node, m: Node) {
    && BodyMoved(ids, n, m)
    && m.revision == n.revision && m.lifecycle == n.lifecycle && m.order == n.order
    && m.hash == NodeDigest(Payload(m.id, n.lifecycle, n.order, m.body))
  }

  lemma SlotsKnownIs(ids: IdMap, n: Node)
    ensures NodeMapped(ids, n) <==> SlotsKnown(ids, n)
  {
    if n.body.BlockBody? {
      var plots := n.body.plotIds;
      assert forall x | x in plots :: HasTarget(ids, PlotKind, x) <==> ("planning-plot", x) in ids;
      assert (forall x | x in plots :: HasTarget(ids, PlotKind, x)) <==> forall k | 0 <= k < |plots| :: HasTarget(ids, PlotKind, plots[k]);
    }
  }

  /** An aggregate can be imported exactly when the map has every id slot of every node, and the active block's. */
  lemma ImportableIff(ids: IdMap, p: Plan)
    ensures PlanMapped(ids, p) <==>
              && (forall n | n in Nodes(p) :: SlotsKnown(ids, n))
              && (p.activeBlock.Some? ==> ("story-block", p.activeBlock.value) in ids)
  {
    hide Nodes, NodeMapped, SlotsKnown;
    forall n | n in Nodes(p)
      ensures NodeMapped(ids, n) <==> SlotsKnown(ids, n)
    {
      SlotsKnownIs(ids, n);
    }
  }

  lemma OneNodeMoved(ids: IdMap, n: Node)
    requires SlotsKnown(ids, n)
    ensures NodeMoved(ids, n, ImportNode(ids, n))
  {
    RenamedFieldsKeep(ids, n.body.fields);
    hide RenamedFields;
  }

  /** Node by node and slot by slot. */
  lemma ImportMovesNodes(ids: IdMap, p: Plan, i: nat)
    requires PlanMapped(ids, p) && i < |Nodes(p)|
    ensures var q := Imported(ids, p);
            && |Nodes(q)| == |Nodes(p)| && NodeMoved(ids, Nodes(p)[i], Nodes(q)[i])
            && |q.volumes| == |p.volumes| && |q.plots| == |p.plots| && |q.blocks| == |p.blocks|
            && (p.activeBlock.None? ==> q.activeBlock.None?)
            && (p.activeBlock.Some? ==> q.activeBlock.Some? && Gives(ids, "story-block", p.activeBlock.value, q.activeBlock.value))
  {
    hide Nodes, SlotsKnown, NodeMoved, PassNode, Gives, PlanMapped;
    ImportableIff(ids, p);
    NodesImported(ids, p);
    assert Nodes(p)[i] in Nodes(p);
    OneNodeMoved(ids, Nodes(p)[i]);
    ActiveMoved(ids, p);
  }

  lemma ActiveMoved(ids: IdMap, p: Plan)
    requires p.activeBlock.Some? ==> ("story-block", p.activeBlock.value) in ids
    ensures var q := Imported(ids, p);
            && (p.activeBlock.None? ==> q.activeBlock.None?)
            && (p.activeBlock.Some? ==> q.activeBlock.Some? && Gives(ids, "story-block", p.activeBlock.value, q.activeBlock.value))
  {
    hide PassAll, PassBlocks;
  }
}
