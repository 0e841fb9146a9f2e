/** Which drafts the normaliser accepts, in terms of the draft, the two aggregates it is judged against and the ids drawn. */
module PlanningAcceptance {
  import opened Wrappers
  import opened Planning
  import opened PlanningClosed
  import opened PlanningFixedPoint

  // ----- the conditions -----

  /** What other nodes call a draft node: its client key while it is new, its id afterwards. */
  function Called(x: DraftNode): string {
    match x.identity
    case Fresh(key) => key
    case Existing(id, _, _) => id
  }

  predicate RefsDistinct(ps: seq<Placed>) {
    && (forall i, j | 0 <= i < j < |ps| :: Called(ps[i].node) != Called(ps[j].node))
    && (forall i | 0 <= i < |ps| && ps[i].node.identity.Existing? :: Called(ps[i].node) != "")
  }

  predicate OrdersDistinct(xs: seq<DraftNode>) { forall i, j | 0 <= i < j < |xs| :: xs[i].order != xs[j].order }

  predicate LevelsDistinct(d: DraftPlan) {
    && OrdersDistinct(d.volumes) && OrdersDistinct(d.plots)
    && (forall i, j | 0 <= i < j < |d.blocks| :: d.blocks[i].node.order != d.blocks[j].node.order)
    && (forall b | b in d.blocks ::
          && (forall i, j | 0 <= i < j < |b.stages| :: b.stages[i].node.order != b.stages[j].node.order)
          && (forall s | s in b.stages :: OrdersDistinct(s.tasks)))
  }

  predicate Has(p: Option<Plan>, id: string) { p.Some? && exists n | n in Nodes(p.value) :: n.id == id }

  /** The node an aggregate holds under an id; should the id occur twice, the last of them. */
  predicate Stored(p: Option<Plan>, n: Node) {
    p.Some? && exists i | 0 <= i < |Nodes(p.value)| ::
      Nodes(p.value)[i] == n && forall j | i < j < |Nodes(p.value)| :: Nodes(p.value)[j].id != n.id
  }

  /** The newest version of a node: the previous draft's, or the confirmed one if that draft has none. */
  predicate Newest(confirmed: Option<Plan>, previous: Option<Plan>, n: Node) {
    Stored(previous, n) || (Stored(confirmed, n) && !Has(previous, n.id))
  }

  /** An existing node names its newest version, and stays retired if it is confirmed as retired. */
  ghost predicate Current(confirmed: Option<Plan>, previous: Option<Plan>, x: DraftNode)
    requires x.identity.Existing?
  {
    && (exists n | Newest(confirmed, previous, n) ::
          && n.id == x.identity.id && n.revision == x.identity.revision && n.hash == x.identity.hash
          && KindOf(n.body) == DraftKind(x.body))
    && (forall n | Stored(confirmed, n) && n.id == x.identity.id && n.lifecycle.Retired? :: x.lifecycle.Retired?)
  }

  ghost predicate ExistingCurrent(ps: seq<Placed>, confirmed: Option<Plan>, previous: Option<Plan>) {
    forall i | 0 <= i < |ps| && ps[i].node.identity.Existing? :: Current(confirmed, previous, ps[i].node)
  }

  predicate NamesExisting(ps: seq<Placed>, id: string) {
    exists i | 0 <= i < |ps| :: ps[i].node.identity.Existing? && ps[i].node.identity.id == id
  }

  /** Every confirmed node is among the existing ones. */
  predicate NothingDropped(ps: seq<Placed>, confirmed: Option<Plan>) {
    confirmed.Some? ==> forall n | n in Nodes(confirmed.value) :: NamesExisting(ps, n.id)
  }

  /** A block names a volume and different plots of the draft. */
  predicate BlockNamed(d: DraftPlan, b: DraftNode) {
    b.body.DraftBlock? ==>
      && (exists v | v in d.volumes :: Called(v) == b.body.volumeRef)
      && (forall ref | ref in b.body.plotRefs :: exists v | v in d.plots :: Called(v) == ref)
      && (forall i, j | 0 <= i < j < |b.body.plotRefs| :: b.body.plotRefs[i] != b.body.plotRefs[j])
  }

  predicate ActiveNamed(d: DraftPlan) {
    d.activeRef.Some? ==> exists b | b in d.blocks :: Called(b.node) == d.activeRef.value && b.node.lifecycle.Active?
  }

  /** How many new nodes come before the i-th. */
  function NewBefore(ps: seq<Placed>, i: nat): nat
    requires i <= |ps|
  {
    |set j | 0 <= j < i && ps[j].node.identity.Fresh?|
  }

  /** The ids drawn for new nodes are not empty, differ, and name nothing so far. */
  predicate DrawnNew(ps: seq<Placed>, confirmed: Option<Plan>, previous: Option<Plan>, factory: nat -> string) {
    && (forall i | 0 <= i < |ps| && ps[i].node.identity.Fresh? ::
          var id := factory(NewBefore(ps, i));
          && id != "" && !Has(confirmed, id) && !Has(previous, id)
          && (forall j | 0 <= j < |ps| && ps[j].node.identity.Fresh? :: Called(ps[j].node) != id))
    && (forall i, j | 0 <= i < j < |ps| && ps[i].node.identity.Fresh? && ps[j].node.identity.Fresh? ::
          factory(NewBefore(ps, i)) != factory(NewBefore(ps, j)))
  }

  ghost predicate Acceptable(d: DraftPlan, confirmed: Option<Plan>, previous: Option<Plan>, factory: nat -> string) {
    var ps := PlacedNodes(d);
    && RefsDistinct(ps) && LevelsDistinct(d) && ExistingCurrent(ps, confirmed, previous) && NothingDropped(ps, confirmed)
    && (forall b | b in d.blocks :: BlockNamed(d, b.node)) && ActiveNamed(d) && DrawnNew(ps, confirmed, previous, factory)
  }

  // ----- the walk -----

  lemma {:induction false} PlacedStagesHas(stages: seq<StageDraft>, block: string, x: DraftNode)
    ensures (exists q | q in PlacedStages(stages, block) :: q.node == x) <==> exists s | s in stages :: x == s.node || x in s.tasks
  {
    if stages != [] {
      var s := stages[0];
      PlacedStagesHas(stages[1..], block, x);
      var front := [Placed(s.node, block)] + PlaceAll(s.tasks, Ref(s.node));
      assert PlacedStages(stages, block) == front + PlacedStages(stages[1..], block);
      PlaceAllHas(s.tasks, Ref(s.node), x);
      assert Placed(s.node, block) in front;
      assert stages == [s] + stages[1..];
    }
  }

  lemma PlaceAllHas(xs: seq<DraftNode>, parent: string, x: DraftNode)
    ensures (exists q | q in PlaceAll(xs, parent) :: q.node == x) <==> x in xs
  {
    var ps := PlaceAll(xs, parent);
    if x in xs {
      var i :| 0 <= i < |xs| && xs[i] == x;
      assert ps[i] in ps;
    }
  }

  lemma {:induction false} PlacedBlocksHas(blocks: seq<BlockDraft>, x: DraftNode)
    ensures (exists q | q in PlacedBlocks(blocks) :: q.node == x) <==>
              exists b | b in blocks :: x == b.node || exists s | s in b.stages :: x == s.node || x in s.tasks
  {
    if blocks != [] {
      var b := blocks[0];
      PlacedBlocksHas(blocks[1..], x);
      PlacedStagesHas(b.stages, Ref(b.node), x);
      var front := [Placed(b.node, "")] + PlacedStages(b.stages, Ref(b.node));
      assert PlacedBlocks(blocks) == front + PlacedBlocks(blocks[1..]);
      assert Placed(b.node, "") in front;
      assert blocks == [b] + blocks[1..];
    }
  }

  /** The walk visits the nodes of every level and no others. */
  lemma WalkHasAll(d: DraftPlan, x: DraftNode)
    ensures (exists q | q in PlacedNodes(d) :: q.node == x) <==>
              || x in d.volumes || x in d.plots
              || exists b | b in d.blocks :: x == b.node || exists s | s in b.stages :: x == s.node || x in s.tasks
  {
    hide PlacedBlocks;
    PlaceAllHas(d.volumes, "", x);
    PlaceAllHas(d.plots, "", x);
    PlacedBlocksHas(d.blocks, x);
  }

  // ----- looking up -----

  lemma {:induction false} MapIsLast(nodes: seq<Node>, n: Node)
    ensures (n.id in NodeMap(nodes) && NodeMap(nodes)[n.id] == n) <==>
              exists i | 0 <= i < |nodes| :: nodes[i] == n && forall j | i < j < |nodes| :: nodes[j].id != n.id
  {
    if nodes != [] {
      var m := |nodes| - 1;
      var front := nodes[..m];
      MapIsLast(front, n);
      if nodes[m].id == n.id {
        if nodes[m] == n {
          assert nodes[m] == n;
        }
      } else {
        if i :| 0 <= i < m && front[i] == n && forall j | i < j < m :: front[j].id != n.id {
          assert nodes[i] == n && forall j | i < j < |nodes| :: nodes[j].id != n.id by {
            forall j | i < j < |nodes|
              ensures nodes[j].id != n.id
            {
              assert j < m ==> front[j] == nodes[j];
            }
          }
        }
        if i :| 0 <= i < |nodes| && nodes[i] == n && forall j | i < j < |nodes| :: nodes[j].id != n.id {
          assert front[i] == n && forall j | i < j < m :: front[j].id != n.id;
        }
      }
    }
  }

  lemma StoredIs(p: Option<Plan>, n: Node)
    ensures Stored(p, n) <==> n.id in PlanMap(p) && PlanMap(p)[n.id] == n
  {
    hide Nodes, NodeMap;
    if p.Some? {
      MapIsLast(Nodes(p.value), n);
    }
  }

  lemma HasIs(p: Option<Plan>, id: string)
    ensures Has(p, id) <==> id in PlanMap(p)
  {
    hide Nodes;
    if p.Some? {
      NodeMapKeys(Nodes(p.value), id);
    }
  }

  lemma NewestIs(c: Context, confirmed: Option<Plan>, previous: Option<Plan>, n: Node)
    requires c.confirmed == PlanMap(confirmed) && c.previous == PlanMap(previous)
    ensures Newest(confirmed, previous, n) <==> Baseline(c, n.id) == Some(n)
  {
    hide Stored, Has, PlanMap;
    StoredIs(confirmed, n);
    StoredIs(previous, n);
    HasIs(previous, n.id);
  }

  lemma MapIds(p: Option<Plan>, id: string)
    requires id in PlanMap(p)
    ensures PlanMap(p)[id].id == id
  {
    hide Nodes;
    NodeMapKeys(Nodes(p.value), id);
  }

  lemma IdentityIs(c: Context, confirmed: Option<Plan>, previous: Option<Plan>, x: DraftNode)
    requires c.confirmed == PlanMap(confirmed) && c.previous == PlanMap(previous) && x.identity.Existing?
    ensures Current(confirmed, previous, x) <==> IdentityOk(c, x, x.identity.id)
  {
    hide Stored, PlanMap, Newest, KindOf, DraftKind;
    var id := x.identity.id;
    forall n: Node | n.id == id
      ensures Newest(confirmed, previous, n) <==> Baseline(c, id) == Some(n)
      ensures Stored(confirmed, n) <==> id in c.confirmed && c.confirmed[id] == n
    {
      NewestIs(c, confirmed, previous, n);
      StoredIs(confirmed, n);
    }
    if id in c.confirmed {
      MapIds(confirmed, id);
      assert Stored(confirmed, c.confirmed[id]);
    }
    if id in c.previous {
      MapIds(previous, id);
    }
    if Baseline(c, id).Some? {
      assert Newest(confirmed, previous, Baseline(c, id).value);
    }
  }

  // ----- ids -----

  lemma {:induction false} CountedBefore(ps: seq<Placed>, i: nat)
    requires i <= |ps|
    ensures FreshCount(ps[..i]) == NewBefore(ps, i)
  {
    var now := set j | 0 <= j < i && ps[j].node.identity.Fresh?;
    if i == 0 {
      assert now == {};
    } else {
      CountedBefore(ps, i - 1);
      assert ps[..i][..i - 1] == ps[..i - 1];
      var before := set j | 0 <= j < i - 1 && ps[j].node.identity.Fresh?;
      assert now == if ps[i - 1].node.identity.Fresh? then before + {i - 1} else before;
    }
  }

  /** The id of the i-th node: its own, or the one drawn after those of the new nodes before it. */
  lemma IdOf(ps: seq<Placed>, factory: nat -> string, i: nat)
    requires i < |ps|
    ensures Assigned(ps, factory)[i] ==
              if ps[i].node.identity.Existing? then ps[i].node.identity.id else factory(NewBefore(ps, i))
  {
    hide Assigned, FreshCount;
    AssignedIs(ps, factory, i);
    CountedBefore(ps, i);
  }

  lemma ClientKeys(ps: seq<Placed>, id: string)
    ensures IsClientKey(ps, id) <==> exists j | 0 <= j < |ps| && ps[j].node.identity.Fresh? :: Called(ps[j].node) == id
  {
  }

  lemma DrawnIsAllocated(ps: seq<Placed>, confirmed: Option<Plan>, previous: Option<Plan>, factory: nat -> string)
    requires RefsOk(ps)
    requires forall i | 0 <= i < |ps| && ps[i].node.identity.Existing? ::
               ps[i].node.identity.id in PlanMap(confirmed) || ps[i].node.identity.id in PlanMap(previous)
    ensures DrawnNew(ps, confirmed, previous, factory) <==> AllocationOk(ps, factory, PlanMap(confirmed), PlanMap(previous))
  {
    hide PlanMap, Has, Assigned, NewBefore, IsClientKey;
    var ids := Assigned(ps, factory);
    forall i | 0 <= i < |ps|
      ensures ids[i] == if ps[i].node.identity.Existing? then ps[i].node.identity.id else factory(NewBefore(ps, i))
      ensures Has(confirmed, ids[i]) <==> ids[i] in PlanMap(confirmed)
      ensures Has(previous, ids[i]) <==> ids[i] in PlanMap(previous)
      ensures IsClientKey(ps, ids[i]) <==> exists j | 0 <= j < |ps| && ps[j].node.identity.Fresh? :: Called(ps[j].node) == ids[i]
    {
      IdOf(ps, factory, i);
      HasIs(confirmed, ids[i]);
      HasIs(previous, ids[i]);
      ClientKeys(ps, ids[i]);
    }
    if DrawnNew(ps, confirmed, previous, factory) {
      forall i, j | 0 <= i < j < |ps|
        ensures ids[i] != ids[j]
      {
        assert Ref(ps[i].node) != Ref(ps[j].node);
      }
    }
  }

  // ----- relations -----

  /** Under distinct references and ids, two references mean one node exactly when they are equal. */
  lemma SameNodeSameRef(ps: seq<Placed>, c: Context, factory: nat -> string, ref: string, j: nat)
    requires RefsOk(ps) && Distinct(Assigned(ps, factory)) && c.ids == Resolved(ps, factory) && j < |ps|
    ensures ref in c.ids && Resolve(c, ref) == Resolve(c, Ref(ps[j].node)) <==> ref == Ref(ps[j].node)
  {
    hide Assigned, Resolved, RefsOk;
    RefResolves(ps, factory, j);
    if ref in c.ids {
      ResolvedIsRef(ps, factory, ref);
      var i :| 0 <= i < |ps| && Ref(ps[i].node) == ref;
      RefResolves(ps, factory, i);
    }
  }

  lemma PlaceOf(d: DraftPlan, x: DraftNode) returns (j: nat)
    requires x in d.volumes || x in d.plots || exists b | b in d.blocks :: x == b.node
    ensures j < |PlacedNodes(d)| && PlacedNodes(d)[j].node == x
  {
    WalkHasAll(d, x);
    var q :| q in PlacedNodes(d) && q.node == x;
    j :| 0 <= j < |PlacedNodes(d)| && PlacedNodes(d)[j] == q;
  }

  lemma SameRef(d: DraftPlan, c: Context, factory: nat -> string, ref: string, x: DraftNode)
    requires RefsOk(PlacedNodes(d)) && Distinct(Assigned(PlacedNodes(d), factory)) && c.ids == Resolved(PlacedNodes(d), factory)
    requires x in d.volumes || x in d.plots || exists b | b in d.blocks :: x == b.node
    ensures ref in c.ids && Resolve(c, ref) == Resolve(c, Ref(x)) <==> ref == Called(x)
  {
    hide PlacedNodes, RefsOk, Assigned, Resolved, Resolve;
    var j := PlaceOf(d, x);
    SameNodeSameRef(PlacedNodes(d), c, factory, ref, j);
  }

  lemma PlotsNamed(d: DraftPlan, c: Context, factory: nat -> string, refs: seq<string>)
    requires RefsOk(PlacedNodes(d)) && Distinct(Assigned(PlacedNodes(d), factory)) && c.ids == Resolved(PlacedNodes(d), factory)
    requires forall ref | ref in refs :: exists v | v in d.plots :: Called(v) == ref
    ensures Distinct(ResolveAll(c, refs)) <==> forall i, j | 0 <= i < j < |refs| :: refs[i] != refs[j]
  {
    hide PlacedNodes, RefsOk, Assigned, Resolved, Resolve;
    forall i, j | 0 <= i < j < |refs|
      ensures Resolve(c, refs[i]) == Resolve(c, refs[j]) <==> refs[i] == refs[j]
    {
      assert refs[i] in refs && refs[j] in refs;
      var v :| v in d.plots && Called(v) == refs[j];
      var w :| w in d.plots && Called(w) == refs[i];
      SameRef(d, c, factory, refs[i], v);
      SameRef(d, c, factory, refs[i], w);
    }
    assert forall i | 0 <= i < |refs| :: ResolveAll(c, refs)[i] == Resolve(c, refs[i]);
  }

  lemma BlockNamedIs(d: DraftPlan, c: Context, factory: nat -> string, b: DraftNode)
    requires RefsOk(PlacedNodes(d)) && Distinct(Assigned(PlacedNodes(d), factory)) && c.ids == Resolved(PlacedNodes(d), factory)
    ensures BlockNamed(d, b) <==> BlockRelationsOk(c, d, b)
  {
    hide PlacedNodes, RefsOk, Assigned, Resolved, Resolve, Distinct;
    if b.body.DraftBlock? {
      var volume, plots := b.body.volumeRef, b.body.plotRefs;
      forall v | v in d.volumes
        ensures volume in c.ids && Resolve(c, volume) == Resolve(c, Ref(v)) <==> volume == Called(v)
      {
        SameRef(d, c, factory, volume, v);
      }
      forall ref, v | v in d.plots
        ensures ref in c.ids && Resolve(c, ref) == Resolve(c, Ref(v)) <==> ref == Called(v)
      {
        SameRef(d, c, factory, ref, v);
      }
      if forall ref | ref in plots :: exists v | v in d.plots :: Called(v) == ref {
        PlotsNamed(d, c, factory, plots);
      }
    }
  }

  lemma ActiveNamedIs(d: DraftPlan, c: Context, factory: nat -> string)
    requires RefsOk(PlacedNodes(d)) && Distinct(Assigned(PlacedNodes(d), factory)) && c.ids == Resolved(PlacedNodes(d), factory)
    ensures ActiveNamed(d) <==> ActiveOk(c, d)
  {
    hide PlacedNodes, RefsOk, Assigned, Resolved, Resolve, Distinct;
    if d.activeRef.Some? {
      forall b | b in d.blocks
        ensures d.activeRef.value in c.ids && Resolve(c, d.activeRef.value) == Resolve(c, Ref(b.node)) <==>
                  d.activeRef.value == Called(b.node)
      {
        SameRef(d, c, factory, d.activeRef.value, b.node);
      }
    }
  }

  // ----- the theorem -----

  lemma RefsAndOrders(d: DraftPlan)
    ensures RefsDistinct(PlacedNodes(d)) <==> RefsOk(PlacedNodes(d))
    ensures LevelsDistinct(d) <==> OrdersOk(d)
  {
    hide PlacedNodes;
  }

  lemma ExistingIs(ps: seq<Placed>, c: Context, confirmed: Option<Plan>, previous: Option<Plan>, factory: nat -> string)
    requires c.confirmed == PlanMap(confirmed) && c.previous == PlanMap(previous)
    ensures ExistingCurrent(ps, confirmed, previous) <==>
              forall i | 0 <= i < |ps| && ps[i].node.identity.Existing? :: IdentityOk(c, ps[i].node, Assigned(ps, factory)[i])
  {
    hide Assigned, IdentityOk, Current, PlanMap;
    forall i | 0 <= i < |ps| && ps[i].node.identity.Existing?
      ensures Current(confirmed, previous, ps[i].node) <==> IdentityOk(c, ps[i].node, Assigned(ps, factory)[i])
    {
      IdOf(ps, factory, i);
      IdentityIs(c, confirmed, previous, ps[i].node);
    }
  }

  lemma KnownWhenCurrent(ps: seq<Placed>, confirmed: Option<Plan>, previous: Option<Plan>, i: nat)
    requires ExistingCurrent(ps, confirmed, previous) && i < |ps| && ps[i].node.identity.Existing?
    ensures ps[i].node.identity.id in PlanMap(confirmed) || ps[i].node.identity.id in PlanMap(previous)
  {
    hide PlanMap, Stored;
    assert Current(confirmed, previous, ps[i].node);
    var n :| Newest(confirmed, previous, n) && n.id == ps[i].node.identity.id;
    StoredIs(confirmed, n);
    StoredIs(previous, n);
  }

  lemma FreshIdentities(ps: seq<Placed>, c: Context, factory: nat -> string)
    requires AllocationOk(ps, factory, c.confirmed, c.previous)
    ensures forall i | 0 <= i < |ps| && ps[i].node.identity.Fresh? :: IdentityOk(c, ps[i].node, Assigned(ps, factory)[i])
  {
    hide Assigned;
  }

  lemma ExistingAssigned(ps: seq<Placed>, confirmed: Option<Plan>, previous: Option<Plan>, factory: nat -> string, id: string)
    requires AllocationOk(ps, factory, PlanMap(confirmed), PlanMap(previous)) && id in PlanMap(confirmed)
    ensures id in Assigned(ps, factory) <==> NamesExisting(ps, id)
  {
    hide PlanMap, Assigned, IsClientKey, Distinct;
    var ids := Assigned(ps, factory);
    forall i | 0 <= i < |ps|
      ensures ps[i].node.identity.Existing? ==> ids[i] == ps[i].node.identity.id
    {
      IdOf(ps, factory, i);
    }
    if id in ids {
      var i :| 0 <= i < |ids| && ids[i] == id;
      assert ps[i].node.identity.Existing?;
    }
  }

  lemma NothingDroppedIs(ps: seq<Placed>, confirmed: Option<Plan>, previous: Option<Plan>, factory: nat -> string)
    requires AllocationOk(ps, factory, PlanMap(confirmed), PlanMap(previous))
    ensures NothingDropped(ps, confirmed) <==> forall id | id in PlanMap(confirmed) :: id in Assigned(ps, factory)
  {
    hide PlanMap, Assigned, Nodes, AllocationOk, NamesExisting;
    if confirmed.Some? {
      forall id: string | true
        ensures id in PlanMap(confirmed) <==> Has(confirmed, id)
        ensures id in PlanMap(confirmed) ==> (id in Assigned(ps, factory) <==> NamesExisting(ps, id))
      {
        HasIs(confirmed, id);
        if id in PlanMap(confirmed) {
          ExistingAssigned(ps, confirmed, previous, factory, id);
        }
      }
      forall n | n in Nodes(confirmed.value)
        ensures Has(confirmed, n.id)
      {
      }
    } else {
      NoPlanNoMap();
    }
  }

  lemma NoPlanNoMap()
    ensures PlanMap(None) == map[]
  {
  }

  /** Once references and allocation are right, the other conditions agree one by one. */
  lemma ConditionsAgree(d: DraftPlan, confirmed: Option<Plan>, previous: Option<Plan>, factory: nat -> string)
    requires var ps := PlacedNodes(d); RefsOk(ps) && AllocationOk(ps, factory, PlanMap(confirmed), PlanMap(previous))
    ensures var ps := PlacedNodes(d);
            var c := ContextOf(d, confirmed, previous, factory);
            && (ExistingCurrent(ps, confirmed, previous) <==>
                  forall i | 0 <= i < |ps| :: IdentityOk(c, ps[i].node, Assigned(ps, factory)[i]))
            && (NothingDropped(ps, confirmed) <==> forall id | id in c.confirmed :: id in Assigned(ps, factory))
            && (ActiveNamed(d) <==> ActiveOk(c, d))
            && ((forall b | b in d.blocks :: BlockNamed(d, b.node)) <==> (forall b | b in d.blocks :: BlockRelationsOk(c, d, b.node)))
  {
    hide PlacedNodes, RefsOk, Resolved, PlanMap, IdentityOk, BlockRelationsOk, ActiveOk, Assigned;
    hide ExistingCurrent, NothingDropped, BlockNamed, ActiveNamed, AllocationOk;
    var ps := PlacedNodes(d);
    var c := ContextOf(d, confirmed, previous, factory);
    ExistingIs(ps, c, confirmed, previous, factory);
    AllocatedDistinct(ps, factory, PlanMap(confirmed), PlanMap(previous));
    FreshIdentities(ps, c, factory);
    NothingDroppedIs(ps, confirmed, previous, factory);
    ActiveNamedIs(d, c, factory);
    forall b | b in d.blocks
      ensures BlockNamed(d, b.node) <==> BlockRelationsOk(c, d, b.node)
    {
      BlockNamedIs(d, c, factory, b.node);
    }
  }

  lemma AllocationIs(ps: seq<Placed>, confirmed: Option<Plan>, previous: Option<Plan>, factory: nat -> string)
    requires RefsOk(ps) && ExistingCurrent(ps, confirmed, previous)
    ensures DrawnNew(ps, confirmed, previous, factory) <==> AllocationOk(ps, factory, PlanMap(confirmed), PlanMap(previous))
  {
    hide RefsOk, PlanMap, ExistingCurrent, DrawnNew, AllocationOk;
    forall i | 0 <= i < |ps| && ps[i].node.identity.Existing?
      ensures ps[i].node.identity.id in PlanMap(confirmed) || ps[i].node.identity.id in PlanMap(previous)
    {
      KnownWhenCurrent(ps, confirmed, previous, i);
    }
    DrawnIsAllocated(ps, confirmed, previous, factory);
  }

  lemma AcceptsSplit(d: DraftPlan, confirmed: Option<Plan>, previous: Option<Plan>, factory: nat -> string)
    ensures var ps := PlacedNodes(d);
            var c := ContextOf(d, confirmed, previous, factory);
            Accepts(d, confirmed, previous, factory) <==>
              && RefsOk(ps) && OrdersOk(d) && AllocationOk(ps, factory, PlanMap(confirmed), PlanMap(previous))
              && (forall i | 0 <= i < |ps| :: IdentityOk(c, ps[i].node, Assigned(ps, factory)[i]))
              && (forall b | b in d.blocks :: BlockRelationsOk(c, d, b.node))
              && ActiveOk(c, d)
              && (forall id | id in c.confirmed :: id in Assigned(ps, factory))
  {
    hide PlacedNodes, RefsOk, OrdersOk, Resolved, PlanMap, IdentityOk, BlockRelationsOk, ActiveOk, Assigned, AllocationOk;
  }

  /** The normaliser accepts exactly these drafts. */
  lemma AcceptedIff(d: DraftPlan, confirmed: Option<Plan>, previous: Option<Plan>, factory: nat -> string)
    ensures Normalize(d, confirmed, previous, factory).Success? <==> Acceptable(d, confirmed, previous, factory)
  {
    hide PlacedNodes, RefsOk, OrdersOk, Resolved, PlanMap, IdentityOk, BlockRelationsOk, ActiveOk, Assigned, FormalPlan;
    hide RefsDistinct, LevelsDistinct, ExistingCurrent, NothingDropped, BlockNamed, ActiveNamed, DrawnNew, AllocationOk;
    hide Accepts, ContextOf;
    var ps := PlacedNodes(d);
    RefsAndOrders(d);
    AcceptsSplit(d, confirmed, previous, factory);
    if RefsOk(ps) {
      if ExistingCurrent(ps, confirmed, previous) {
        AllocationIs(ps, confirmed, previous, factory);
      }
      if AllocationOk(ps, factory, PlanMap(confirmed), PlanMap(previous)) {
        ConditionsAgree(d, confirmed, previous, factory);
      }
    }
  }

  lemma AllocatedDistinct(ps: seq<Placed>, factory: nat -> string, confirmed: map<string, Node>, previous: map<string, Node>)
    requires AllocationOk(ps, factory, confirmed, previous)
    ensures Distinct(Assigned(ps, factory))
  {
  }

  /** The i-th node of the result is the i-th of the walk, under its own id or the next one drawn. */
  lemma NewNodesDraw(d: DraftPlan, confirmed: Option<Plan>, previous: Option<Plan>, factory: nat -> string, i: nat)
    requires Normalize(d, confirmed, previous, factory).Success? && i < |PlacedNodes(d)|
    ensures var p := Normalize(d, confirmed, previous, factory).value;
            var x := PlacedNodes(d)[i].node;
            && |Nodes(p)| == |PlacedNodes(d)|
            && Nodes(p)[i].id == if x.identity.Existing? then x.identity.id else factory(NewBefore(PlacedNodes(d), i))
  {
    hide PlacedNodes, Nodes, RefsOk, Resolved, Assigned, FormalPlan, FormalNode, PlanMap, OrdersOk, AllocationOk, ActiveOk;
    hide IdentityOk, BlockRelationsOk, NewBefore, Resolve;
    FormalIds(d, confirmed, previous, factory);
    IdOf(PlacedNodes(d), factory, i);
  }
}
