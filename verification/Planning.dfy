/**
  The revisioned planning aggregate and the rules a draft must meet to become
  one.

  A node's own fields are kept as the dictionary the planning models validate; relations
  to other nodes are separate.  The canonical hash is the free injective one: a
  digest is the payload it was taken of.
*/
module Planning {
  import opened Wrappers

  datatype Lifecycle = Active | Retired

  datatype Kind = VolumeKind | PlotKind | BlockKind | StageKind | TaskKind

  datatype CharacterNode = CharacterNode(id: string, title: string, dimensions: seq<string>, expectedChapter: Option<nat>)

  datatype CharacterDesign = CharacterDesign(entityId: Option<string>, displayName: string, nodes: seq<CharacterNode>)

  /** A JSON value as far as a field's type can tell values apart. */
  datatype FieldValue = Text(text: string) | Texts(texts: seq<string>) | Design(design: CharacterDesign) | OtherJson(json: string)

  type Fields = map<string, FieldValue>

  /** A node's fields together with the ids of the nodes it belongs to. */
  datatype Body =
    | VolumeBody(fields: Fields)
    | PlotBody(fields: Fields)
    | BlockBody(volumeId: string, plotIds: seq<string>, fields: Fields)
    | StageBody(blockId: string, fields: Fields)
    | TaskBody(stageId: string, fields: Fields)

  datatype Payload = Payload(id: string, lifecycle: Lifecycle, order: nat, body: Body)

  datatype NodeHash = NodeDigest(payload: Payload) | OtherDigest(text: string)

  datatype Node = Node(id: string, revision: nat, hash: NodeHash, lifecycle: Lifecycle, order: nat, body: Body)

  datatype Stage = Stage(node: Node, tasks: seq<Node>)

  datatype StoryBlock = StoryBlock(node: Node, stages: seq<Stage>)

  datatype PlanHash = PlanDigest(activeBlock: Option<string>, volumes: seq<Node>, plots: seq<Node>, blocks: seq<StoryBlock>)
                    | OtherPlanDigest(text: string)

  datatype Plan = Plan(activeBlock: Option<string>, volumes: seq<Node>, plots: seq<Node>, blocks: seq<StoryBlock>, hash: PlanHash)

  /** A draft node is new under a client key, or names an existing node with its revision and hash. */
  datatype Identity = Fresh(clientKey: string) | Existing(id: string, revision: nat, hash: NodeHash)

  datatype DraftBody =
    | DraftVolume(fields: Fields)
    | DraftPlot(fields: Fields)
    | DraftBlock(volumeRef: string, plotRefs: seq<string>, fields: Fields)
    | DraftStage(fields: Fields)
    | DraftTask(fields: Fields)

  datatype DraftNode = DraftNode(identity: Identity, lifecycle: Lifecycle, order: nat, body: DraftBody)

  datatype StageDraft = StageDraft(node: DraftNode, tasks: seq<DraftNode>)

  datatype BlockDraft = BlockDraft(node: DraftNode, stages: seq<StageDraft>)

  datatype DraftPlan = DraftPlan(activeRef: Option<string>, volumes: seq<DraftNode>, plots: seq<DraftNode>, blocks: seq<BlockDraft>)

  datatype PlanningError = InvalidDraft

  function KindOf(b: Body): Kind {
    match b
    case VolumeBody(_) => VolumeKind
    case PlotBody(_) => PlotKind
    case BlockBody(_, _, _) => BlockKind
    case StageBody(_, _) => StageKind
    case TaskBody(_, _) => TaskKind
  }

  function DraftKind(b: DraftBody): Kind {
    match b
    case DraftVolume(_) => VolumeKind
    case DraftPlot(_) => PlotKind
    case DraftBlock(_, _, _) => BlockKind
    case DraftStage(_) => StageKind
    case DraftTask(_) => TaskKind
  }

  // ----- nodes of an aggregate, in the order `_iter_nodes` yields them -----

  function StageNodes(stages: seq<Stage>): seq<Node> {
    if stages == [] then [] else ([stages[0].node] + stages[0].tasks) + StageNodes(stages[1..])
  }

  function BlockNodes(blocks: seq<StoryBlock>): seq<Node> {
    if blocks == [] then [] else ([blocks[0].node] + StageNodes(blocks[0].stages)) + BlockNodes(blocks[1..])
  }

  function Nodes(p: Plan): seq<Node> { p.volumes + p.plots + BlockNodes(p.blocks) }

  /** A draft node with the reference of the node that contains it. */
  datatype Placed = Placed(node: DraftNode, parent: string)

  function Ref(d: DraftNode): string {
    if d.identity.Fresh? then d.identity.clientKey else d.identity.id
  }

  function PlaceAll(ds: seq<DraftNode>, parent: string): (r: seq<Placed>)
    ensures |r| == |ds|
  {
    seq(|ds|, i requires 0 <= i < |ds| => Placed(ds[i], parent))
  }

  function PlacedStages(stages: seq<StageDraft>, block: string): seq<Placed> {
    if stages == [] then []
    else
      ([Placed(stages[0].node, block)] + PlaceAll(stages[0].tasks, Ref(stages[0].node))) + PlacedStages(stages[1..], block)
  }

  function PlacedBlocks(blocks: seq<BlockDraft>): seq<Placed> {
    if blocks == [] then []
    else
      ([Placed(blocks[0].node, "")] + PlacedStages(blocks[0].stages, Ref(blocks[0].node))) + PlacedBlocks(blocks[1..])
  }

  function PlacedNodes(d: DraftPlan): seq<Placed> {
    PlaceAll(d.volumes, "") + PlaceAll(d.plots, "") + PlacedBlocks(d.blocks)
  }

  function NodeMap(nodes: seq<Node>): map<string, Node> {
    if nodes == [] then map[]
    else NodeMap(nodes[..|nodes| - 1])[nodes[|nodes| - 1].id := nodes[|nodes| - 1]]
  }

  function PlanMap(p: Option<Plan>): map<string, Node> {
    if p.None? then map[] else NodeMap(Nodes(p.value))
  }

  // ----- identities -----

  function FreshCount(ps: seq<Placed>): nat {
    if ps == [] then 0
    else FreshCount(ps[..|ps| - 1]) + if ps[|ps| - 1].node.identity.Fresh? then 1 else 0
  }

  /** The id each node gets: its own, or the next one the factory yields. */
  function Assigned(ps: seq<Placed>, factory: nat -> string): (ids: seq<string>)
    ensures |ids| == |ps|
  {
    if ps == [] then []
    else
      var n := |ps| - 1;
      var d := ps[n].node;
      Assigned(ps[..n], factory) + [if d.identity.Fresh? then factory(FreshCount(ps[..n])) else d.identity.id]
  }

  function Resolved(ps: seq<Placed>, factory: nat -> string): map<string, string> {
    if ps == [] then map[]
    else
      var n := |ps| - 1;
      Resolved(ps[..n], factory)[Ref(ps[n].node) := Assigned(ps, factory)[n]]
  }

  /** What a node is judged against: the resolved references and the two previous versions. */
  datatype Context = Context(ids: map<string, string>, confirmed: map<string, Node>, previous: map<string, Node>)

  function Resolve(c: Context, ref: string): string {
    if ref in c.ids then c.ids[ref] else ""
  }

  function ResolveAll(c: Context, refs: seq<string>): (r: seq<string>)
    ensures |r| == |refs|
  {
    seq(|refs|, i requires 0 <= i < |refs| => Resolve(c, refs[i]))
  }

  function Baseline(c: Context, id: string): Option<Node> {
    if id in c.previous then Some(c.previous[id])
    else if id in c.confirmed then Some(c.confirmed[id])
    else None
  }

  predicate IdentityOk(c: Context, d: DraftNode, id: string) {
    && (d.identity.Existing? ==>
          && Baseline(c, id).Some?
          && KindOf(Baseline(c, id).value.body) == DraftKind(d.body)
          && Baseline(c, id).value.revision == d.identity.revision
          && Baseline(c, id).value.hash == d.identity.hash)
    && (id in c.confirmed && c.confirmed[id].lifecycle.Retired? ==> d.lifecycle.Retired?)
  }

  // ----- the formal aggregate -----

  function FormalBody(c: Context, b: DraftBody, parent: string): Body {
    match b
    case DraftVolume(f) => VolumeBody(f)
    case DraftPlot(f) => PlotBody(f)
    case DraftBlock(volume, plots, f) => BlockBody(Resolve(c, volume), ResolveAll(c, plots), f)
    case DraftStage(f) => StageBody(Resolve(c, parent), f)
    case DraftTask(f) => TaskBody(Resolve(c, parent), f)
  }

  /** The node with its revision: kept while the payload is the baseline's, raised by one when it is not. */
  function FormalNode(c: Context, d: DraftNode, parent: string): Node {
    var id := Resolve(c, Ref(d));
    var payload := Payload(id, d.lifecycle, d.order, FormalBody(c, d.body, parent));
    var base := Baseline(c, id);
    var revision := if base.None? then 1
                    else if base.value.hash == NodeDigest(payload) then base.value.revision
                    else base.value.revision + 1;
    Node(id, revision, NodeDigest(payload), d.lifecycle, d.order, payload.body)
  }

  function FormalNodes(c: Context, ds: seq<DraftNode>, parent: string): (r: seq<Node>)
    ensures |r| == |ds|
  {
    seq(|ds|, i requires 0 <= i < |ds| => FormalNode(c, ds[i], parent))
  }

  function FormalStage(c: Context, s: StageDraft, block: string): Stage {
    Stage(FormalNode(c, s.node, block), FormalNodes(c, s.tasks, Ref(s.node)))
  }

  function FormalStages(c: Context, stages: seq<StageDraft>, block: string): (r: seq<Stage>)
    ensures |r| == |stages|
  {
    seq(|stages|, i requires 0 <= i < |stages| => FormalStage(c, stages[i], block))
  }

  function FormalBlock(c: Context, b: BlockDraft): StoryBlock {
    StoryBlock(FormalNode(c, b.node, ""), FormalStages(c, b.stages, Ref(b.node)))
  }

  function FormalBlocks(c: Context, blocks: seq<BlockDraft>): (r: seq<StoryBlock>)
    ensures |r| == |blocks|
  {
    seq(|blocks|, i requires 0 <= i < |blocks| => FormalBlock(c, blocks[i]))
  }

  function Hashed(p: Plan): Plan {
    p.(hash := PlanDigest(p.activeBlock, p.volumes, p.plots, p.blocks))
  }

  function FormalPlan(c: Context, d: DraftPlan): Plan {
    Hashed(Plan(if d.activeRef.Some? then Some(Resolve(c, d.activeRef.value)) else None,
                FormalNodes(c, d.volumes, ""), FormalNodes(c, d.plots, ""), FormalBlocks(c, d.blocks),
                OtherPlanDigest("")))
  }

  // ----- what a draft must meet -----

  predicate Distinct(s: seq<string>) { forall i, j | 0 <= i < j < |s| :: s[i] != s[j] }

  predicate DraftOrdersUnique(ds: seq<DraftNode>) {
    forall i, j | 0 <= i < j < |ds| :: ds[i].order != ds[j].order
  }

  predicate OrdersOk(d: DraftPlan) {
    && DraftOrdersUnique(d.volumes) && DraftOrdersUnique(d.plots)
    && (forall i, j | 0 <= i < j < |d.blocks| :: d.blocks[i].node.order != d.blocks[j].node.order)
    && (forall b | b in d.blocks ::
          && (forall i, j | 0 <= i < j < |b.stages| :: b.stages[i].node.order != b.stages[j].node.order)
          && (forall s | s in b.stages :: DraftOrdersUnique(s.tasks)))
  }

  /** No two nodes are called the same, be it by formal id or by client key, and no formal id is empty. */
  predicate RefsOk(ps: seq<Placed>) {
    && (forall i, j | 0 <= i < j < |ps| :: Ref(ps[i].node) != Ref(ps[j].node))
    && (forall i | 0 <= i < |ps| :: ps[i].node.identity.Existing? ==> ps[i].node.identity.id != "")
  }

  predicate IsClientKey(ps: seq<Placed>, s: string) {
    exists i | 0 <= i < |ps| :: ps[i].node.identity == Fresh(s)
  }

  predicate AllocationOk(ps: seq<Placed>, factory: nat -> string, confirmed: map<string, Node>, previous: map<string, Node>) {
    var ids := Assigned(ps, factory);
    && Distinct(ids)
    && forall i | 0 <= i < |ps| && ps[i].node.identity.Fresh? ::
         ids[i] != "" && !IsClientKey(ps, ids[i]) && ids[i] !in confirmed && ids[i] !in previous
  }

  /** A block names one of the draft's volumes and distinct plots of the draft. */
  predicate BlockRelationsOk(c: Context, d: DraftPlan, b: DraftNode) {
    b.body.DraftBlock? ==>
      && b.body.volumeRef in c.ids
      && (exists v | v in d.volumes :: Resolve(c, b.body.volumeRef) == Resolve(c, Ref(v)))
      && (forall ref | ref in b.body.plotRefs :: ref in c.ids)
      && Distinct(ResolveAll(c, b.body.plotRefs))
      && (forall ref | ref in b.body.plotRefs :: exists v | v in d.plots :: Resolve(c, ref) == Resolve(c, Ref(v)))
  }

  predicate ActiveOk(c: Context, d: DraftPlan) {
    d.activeRef.Some? ==>
      && d.activeRef.value in c.ids
      && exists b | b in d.blocks :: Resolve(c, d.activeRef.value) == Resolve(c, Ref(b.node)) && b.node.lifecycle.Active?
  }

  function ContextOf(d: DraftPlan, confirmed: Option<Plan>, previous: Option<Plan>, factory: nat -> string): Context {
    Context(Resolved(PlacedNodes(d), factory), PlanMap(confirmed), PlanMap(previous))
  }

  predicate Accepts(d: DraftPlan, confirmed: Option<Plan>, previous: Option<Plan>, factory: nat -> string) {
    var ps := PlacedNodes(d);
    var c := ContextOf(d, confirmed, previous, factory);
    && RefsOk(ps)
    && OrdersOk(d)
    && AllocationOk(ps, factory, c.confirmed, c.previous)
    && (forall i | 0 <= i < |ps| :: IdentityOk(c, ps[i].node, Assigned(ps, factory)[i]))
    && (forall b | b in d.blocks :: BlockRelationsOk(c, d, b.node))
    && ActiveOk(c, d)
    && (forall id | id in c.confirmed :: id in Assigned(ps, factory))
  }

  /** Allocates ids, checks one-way relations and derives local revisions. */
  function Normalize(d: DraftPlan, confirmed: Option<Plan>, previous: Option<Plan>, factory: nat -> string)
    : Result<Plan, PlanningError>
  {
    if Accepts(d, confirmed, previous, factory)
    then Success(FormalPlan(ContextOf(d, confirmed, previous, factory), d))
    else Failure(InvalidDraft)
  }

  // ----- shapes the planning models guarantee -----

  predicate AllOfKind(nodes: seq<Node>, k: Kind) { forall n | n in nodes :: KindOf(n.body) == k }

  predicate Shaped(p: Plan) {
    && AllOfKind(p.volumes, VolumeKind) && AllOfKind(p.plots, PlotKind)
    && forall b | b in p.blocks ::
         && KindOf(b.node.body) == BlockKind
         && forall s | s in b.stages :: KindOf(s.node.body) == StageKind && AllOfKind(s.tasks, TaskKind)
  }

  predicate AllOfDraftKind(ds: seq<DraftNode>, k: Kind) { forall d | d in ds :: DraftKind(d.body) == k }

  predicate DraftShaped(d: DraftPlan) {
    && AllOfDraftKind(d.volumes, VolumeKind) && AllOfDraftKind(d.plots, PlotKind)
    && forall b | b in d.blocks ::
         && DraftKind(b.node.body) == BlockKind
         && forall s | s in b.stages :: DraftKind(s.node.body) == StageKind && AllOfDraftKind(s.tasks, TaskKind)
  }
}
