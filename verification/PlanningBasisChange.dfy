/** Two runs across a change of basis: one loses every confirmed node, one keeps them all. */
module PlanningBasisChange {
  import opened Wrappers
  import opened Planning
  import opened PlanningClosed
  import opened PlanningFixedPoint
  import opened PlanningPatches
  import opened PlanningRuns
  import opened PlanningSurvival

  // ----- a smallest confirmable draft -----

  function New(key: string, body: DraftBody): DraftNode { DraftNode(Fresh(key), Active, 1, body) }

  function VolumeFields(): Fields {
    map["title" := Text("Volume"), "coreChange" := Text("Change"), "mainPressure" := Text(""), "ensembleFocus" := Texts([]),
        "forbiddenEvents" := Texts([])]
  }

  function PlotFields(): Fields {
    map["title" := Text("Plot"), "plotType" := Text("main"), "storyQuestion" := Text("Why?"), "futureDirection" := Text(""),
        "expectedPayoff" := Text(""), "relatedCharacters" := Texts([])]
  }

  function BlockFields(): Fields {
    map["title" := Text("Block"), "entrySituation" := Text(""), "blockGoal" := Text("Goal"), "mainPressure" := Text(""),
        "expectedChange" := Text(""), "openQuestions" := Texts([]), "involvedCharacters" := Texts([])]
  }

  function StageFields(): Fields {
    map["title" := Text("Stage"), "purpose" := Text("Purpose"), "dramaticQuestion" := Text("What?")]
  }

  function TaskFields(): Fields { map["task" := Text("Task"), "completionEvidence" := Text("Evidence")] }

  /** One volume, plot, block, stage and task, all new. */
  const SAMPLE := DraftPlan(
    Some("b"), [New("v", DraftVolume(VolumeFields()))], [New("p", DraftPlot(PlotFields()))],
    [BlockDraft(New("b", DraftBlock("v", ["p"], BlockFields())),
                [StageDraft(New("s", DraftStage(StageFields())), [New("t", DraftTask(TaskFields()))])])])

  /** The sample's nodes in the order of the walk. */
  const PLACED := [Placed(New("v", DraftVolume(VolumeFields())), ""), Placed(New("p", DraftPlot(PlotFields())), ""),
                   Placed(New("b", DraftBlock("v", ["p"], BlockFields())), ""),
                   Placed(New("s", DraftStage(StageFields())), "b"), Placed(New("t", DraftTask(TaskFields())), "s")]

  /** A factory that never repeats itself: one letter, ever more often. */
  function Letters(c: char): nat -> string { (k: nat) => seq(k + 1, _ => c) }

  lemma SamplePlaced()
    ensures PlacedNodes(SAMPLE) == PLACED
  {
    var b := SAMPLE.blocks[0];
    var s := b.stages[0];
    assert PlaceAll(SAMPLE.volumes, "") == PLACED[0..1];
    assert PlaceAll(SAMPLE.plots, "") == PLACED[1..2];
    assert b.stages[1..] == [] && SAMPLE.blocks[1..] == [];
    assert PlacedStages(b.stages, "b") == [PLACED[3]] + [PLACED[4]] by {
      assert PlaceAll(s.tasks, "s") == [PLACED[4]];
    }
    assert PlacedBlocks(SAMPLE.blocks) == PLACED[2..5];
  }

  lemma {:induction false} AllFresh(ps: seq<Placed>)
    requires forall i | 0 <= i < |ps| :: ps[i].node.identity.Fresh?
    ensures FreshCount(ps) == |ps|
  {
    if ps != [] {
      AllFresh(ps[..|ps| - 1]);
    }
  }

  /** The i-th new node gets the i-th id. */
  lemma SampleAssigned(ids: nat -> string, i: nat)
    requires i < 5
    ensures Assigned(PLACED, ids)[i] == ids(i)
  {
    hide FreshCount, Assigned;
    AssignedIs(PLACED, ids, i);
    AllFresh(PLACED[..i]);
  }

  /** The ids the factory gives first differ from each other, from the client keys and from nothing. */
  ghost predicate Serves(ids: nat -> string) {
    && (forall i, j | 0 <= i < j < 5 :: ids(i) != ids(j))
    && (forall i | 0 <= i < 5 :: ids(i) != "" && forall q | q in PLACED :: q.node.identity.clientKey != ids(i))
  }

  lemma KeyIsOther(q: Placed, c: char)
    requires q in PLACED && (c == 'x' || c == 'y')
    ensures q.node.identity.Fresh? && |q.node.identity.clientKey| == 1 && q.node.identity.clientKey[0] != c
  {
    hide VolumeFields, PlotFields, BlockFields, StageFields, TaskFields;
  }

  lemma LettersServe(c: char)
    requires c == 'x' || c == 'y'
    ensures Serves(Letters(c))
  {
    hide VolumeFields, PlotFields, BlockFields, StageFields, TaskFields;
    var ids := Letters(c);
    assert forall i: nat :: |ids(i)| == i + 1 && ids(i)[0] == c;
    forall i, q | 0 <= i < 5 && q in PLACED
      ensures q.node.identity.clientKey != ids(i)
    {
      KeyIsOther(q, c);
    }
  }

  lemma SampleRefs()
    ensures RefsOk(PLACED)
  {
    assert "v" != "p" && "v" != "b" && "v" != "s" && "v" != "t" && "p" != "b" && "p" != "s" && "p" != "t";
    assert "b" != "s" && "b" != "t" && "s" != "t";
  }

  lemma SampleAllocates(ids: nat -> string)
    requires Serves(ids)
    ensures AllocationOk(PLACED, ids, map[], map[])
  {
    hide Assigned, FreshCount;
    forall i | 0 <= i < 5
      ensures Assigned(PLACED, ids)[i] == ids(i)
    {
      SampleAssigned(ids, i);
    }
    forall i | 0 <= i < 5
      ensures !IsClientKey(PLACED, ids(i))
    {
      assert forall k | 0 <= k < 5 :: PLACED[k] in PLACED;
    }
  }

  lemma SampleOrders()
    ensures OrdersOk(SAMPLE)
  {
  }

  lemma EmptyMaps()
    ensures PlanMap(None) == map[] && PlanMap(Some(EMPTY)) == map[]
  {
    assert Nodes(EMPTY) == [];
  }

  /** Every client key of the sample resolves. */
  lemma SampleResolves(c: Context, ids: nat -> string, i: nat)
    requires c.ids == Resolved(PLACED, ids) && i < 5
    ensures Ref(PLACED[i].node) in c.ids
  {
    hide Resolved;
    SampleRefs();
    RefResolves(PLACED, ids, i);
  }

  lemma SampleRelations(c: Context, ids: nat -> string)
    requires c.ids == Resolved(PLACED, ids)
    ensures BlockRelationsOk(c, SAMPLE, SAMPLE.blocks[0].node) && ActiveOk(c, SAMPLE)
  {
    hide Resolved, Resolve;
    SampleResolves(c, ids, 0);
    SampleResolves(c, ids, 1);
    SampleResolves(c, ids, 2);
    assert PLACED[0].node in SAMPLE.volumes && PLACED[1].node in SAMPLE.plots;
    assert SAMPLE.blocks[0] in SAMPLE.blocks;
  }

  /** On a basis with no confirmed plan the sample is accepted into an empty draft. */
  lemma SampleAccepted(ids: nat -> string)
    requires Serves(ids)
    ensures Accepts(SAMPLE, None, Some(EMPTY), ids)
  {
    hide Resolved, Assigned, RefsOk, OrdersOk, AllocationOk, BlockRelationsOk, ActiveOk, Serves, Nodes, PlacedNodes;
    SamplePlaced();
    EmptyMaps();
    SampleRefs();
    SampleOrders();
    SampleAllocates(ids);
    SampleRelations(ContextOf(SAMPLE, None, Some(EMPTY), ids), ids);
    assert forall b | b in SAMPLE.blocks :: b == SAMPLE.blocks[0];
  }

  /** The plan the sample becomes. */
  function SamplePlan(ids: nat -> string): Plan {
    FormalPlan(ContextOf(SAMPLE, None, Some(EMPTY), ids), SAMPLE)
  }

  /** The sample's plan, written out for given ids. */
  lemma SamplePlanIs(c: Context)
    ensures var p := FormalPlan(c, SAMPLE);
            && |p.volumes| == 1 && p.volumes[0].id == Resolve(c, "v") && p.volumes[0].lifecycle.Active?
            && |p.plots| == 1 && p.plots[0].id == Resolve(c, "p") && p.plots[0].lifecycle.Active? && p.plots[0].body == PlotBody(PlotFields())
            && p.activeBlock == Some(Resolve(c, "b"))
  {
    hide Resolve;
  }

  lemma SampleBlockIs(c: Context)
    ensures var p := FormalPlan(c, SAMPLE);
            && |p.blocks| == 1
            && p.blocks[0].node.id == Resolve(c, "b") && p.blocks[0].node.lifecycle.Active?
            && p.blocks[0].node.body == BlockBody(Resolve(c, "v"), [Resolve(c, "p")], BlockFields())
            && |p.blocks[0].stages| == 1 && p.blocks[0].stages[0].node.lifecycle.Active?
            && |p.blocks[0].stages[0].tasks| == 1 && p.blocks[0].stages[0].tasks[0].lifecycle.Active?
  {
    hide Resolve, Baseline;
  }

  lemma NoDesign()
    ensures "characterDesign" !in PlotFields()
  {
    assert |"characterDesign"| == 15 && forall k | k in PlotFields() :: |k| <= 17 && k[0] != 'c';
  }

  lemma SampleReady(ids: nat -> string, blank: string -> bool)
    ensures Confirmable(SamplePlan(ids), blank)
  {
    var c := ContextOf(SAMPLE, None, Some(EMPTY), ids);
    var p := SamplePlan(ids);
    SamplePlanIs(c);
    SampleBlockIs(c);
    NoDesign();
    hide FormalPlan, ContextOf, Resolve, PlotFields;
    assert p.volumes[0] in p.volumes && p.plots[0] in p.plots && p.blocks[0] in p.blocks;
    var s := p.blocks[0].stages[0];
    assert s in p.blocks[0].stages && s.tasks[0] in s.tasks;
    assert BlockReady(p, p.blocks[0]);
  }

  lemma SampleShaped()
    ensures DraftShaped(SAMPLE)
  {
  }

  // ----- runs -----

  lemma {:induction false} RunConcat(s: State, a: seq<Label>, b: seq<Label>, blank: string -> bool, fits: FieldRule)
    ensures Run(s, a + b, blank, fits) == Run(Run(s, a, blank, fits), b, blank, fits)
    decreases b
  {
    hide Next;
    if b == [] {
      assert a + b == a;
    } else {
      var n := |b| - 1;
      RunConcat(s, a, b[..n], blank, fits);
      assert (a + b)[..|a + b| - 1] == a + b[..n];
    }
  }

  lemma RunOne(s: State, l: Label, blank: string -> bool, fits: FieldRule)
    ensures Run(s, [l], blank, fits) == Next(s, l, blank, fits)
  {
    hide Next;
    assert [l][..0] == [];
  }

  lemma RunThree(s: State, a: Label, b: Label, c: Label, blank: string -> bool, fits: FieldRule)
    ensures Run(s, [a, b, c], blank, fits) == Next(Next(Next(s, a, blank, fits), b, blank, fits), c, blank, fits)
  {
    hide Next, Run;
    RunOne(s, a, blank, fits);
    RunConcat(s, [a], [b], blank, fits);
    RunOne(Run(s, [a], blank, fits), b, blank, fits);
    RunConcat(s, [a] + [b], [c], blank, fits);
    RunOne(Run(s, [a] + [b], blank, fits), c, blank, fits);
    assert [a] + [b] + [c] == [a, b, c];
  }

  function WriteSample(ids: nat -> string): seq<Label> { [Create, Save(SAMPLE, ids), Confirm] }

  /** With nothing confirmed on the present basis, writing and confirming the sample adds its plan. */
  lemma SampleIsConfirmed(s: State, ids: nat -> string, blank: string -> bool, fits: FieldRule)
    requires Serves(ids) && s.draft.None? && (s.history == [] || !HeadMatchesBasis(s))
    ensures Run(s, WriteSample(ids), blank, fits) == s.(history := s.history + [Revision(SamplePlan(ids), s.basis)])
  {
    hide Confirmable, Run, Accepts, FormalPlan, Serves, ApplyPatches;
    hide VolumeFields, PlotFields, BlockFields, StageFields, TaskFields;
    SampleAccepted(ids);
    SampleReady(ids, blank);
    RunThree(s, Create, Save(SAMPLE, ids), Confirm, blank, fits);
    var created := Next(s, Create, blank, fits);
    assert created == s.(draft := Some(Draft(EMPTY, s.basis, |s.history|)));
    assert Next(created, Save(SAMPLE, ids), blank, fits) == s.(draft := Some(Draft(SamplePlan(ids), s.basis, |s.history|)));
  }

  /** The nodes of the sample's plan carry the first ids of its factory. */
  lemma SampleIds(ids: nat -> string, i: nat)
    ensures |Nodes(SamplePlan(ids))| == 5
    ensures i < 5 ==> Nodes(SamplePlan(ids))[i].id == ids(i)
  {
    hide Resolved, Assigned, RefsOk, Nodes, PlacedNodes, PlanMap, FormalPlan, FormalNode;
    SamplePlaced();
    SampleRefs();
    FormalIds(SAMPLE, None, Some(EMPTY), ids);
    if i < 5 {
      SampleAssigned(ids, i);
    }
  }

  lemma LettersDiffer(i: nat, j: nat)
    ensures Letters('x')(i) != Letters('y')(j)
  {
    assert Letters('x')(i)[0] == 'x' && Letters('y')(j)[0] == 'y';
  }

  lemma SamplesShareNothing()
    ensures HoldsNothing(SamplePlan(Letters('x')), SamplePlan(Letters('y')))
  {
    hide Nodes, SamplePlan, Letters;
    var first, second := Nodes(SamplePlan(Letters('x'))), Nodes(SamplePlan(Letters('y')));
    forall n | n in first
      ensures !Names(second, n.id)
    {
      var i :| 0 <= i < |first| && first[i] == n;
      SampleIds(Letters('x'), i);
      SampleIds(Letters('y'), 0);
      forall j | 0 <= j < |second|
        ensures second[j].id != n.id
      {
        SampleIds(Letters('y'), j);
        LettersDiffer(i, j);
      }
    }
  }

  const LOSING := WriteSample(Letters('x')) + [ChangeBasis(1)] + WriteSample(Letters('y'))

  /** A run whose second confirmed revision keeps no node of the first: between them the basis changed. */
  lemma LosingRun(blank: string -> bool, fits: FieldRule)
    ensures forall l | l in LOSING :: LabelOk(l)
    ensures var h := Run(State([], 0, None), LOSING, blank, fits).history;
            && h == [Revision(SamplePlan(Letters('x')), 0), Revision(SamplePlan(Letters('y')), 1)]
            && HoldsNothing(h[0].plan, h[1].plan) && !Follows(h[0].plan, h[1].plan)
  {
    hide Run, Next, SamplePlan, Letters, HoldsNothing, Follows, Serves, Confirmable;
    var start := State([], 0, None);
    var first, change := WriteSample(Letters('x')), [ChangeBasis(1)];
    SampleShaped();
    LettersServe('x');
    LettersServe('y');
    SampleIsConfirmed(start, Letters('x'), blank, fits);
    var one := Run(start, first, blank, fits);
    RunConcat(start, first, change, blank, fits);
    RunOne(one, ChangeBasis(1), blank, fits);
    ChangeIs(one, 1, blank, fits);
    var two := Run(start, first + change, blank, fits);
    SampleIsConfirmed(two, Letters('y'), blank, fits);
    RunConcat(start, first + change, WriteSample(Letters('y')), blank, fits);
    SamplesShareNothing();
    SampleHasVolume(Letters('x'));
    NothingFollows(SamplePlan(Letters('x')), SamplePlan(Letters('y')));
  }

  lemma ChangeIs(s: State, to: nat, blank: string -> bool, fits: FieldRule)
    ensures Next(s, ChangeBasis(to), blank, fits) == s.(basis := to)
  {
  }

  lemma SampleHasVolume(ids: nat -> string)
    ensures SamplePlan(ids).volumes != []
  {
    SamplePlanIs(ContextOf(SAMPLE, None, Some(EMPTY), ids));
  }

  // ----- a chain that survives -----

  lemma LoadingHeadIntoEmpty(p: Plan, ids: nat -> string)
    requires Canonical(p)
    ensures Normalize(Editable(p, map[]), Some(p), Some(EMPTY), ids) == Success(p)
  {
    hide Canonical, Editable, Latest, Nodes;
    CanonicalIds(p);
    LatestForItself(p, None);
    LatestIsFixedPoint(p, Some(p), None, ids);
    EmptyMaps();
    EmptyPrevious(Editable(p, map[]), Some(p), ids);
  }

  lemma EmptyPrevious(d: DraftPlan, confirmed: Option<Plan>, ids: nat -> string)
    ensures Normalize(d, confirmed, Some(EMPTY), ids) == Normalize(d, confirmed, None, ids)
  {
    hide PlacedNodes, Nodes, RefsOk, OrdersOk, AllocationOk, BlockRelationsOk, ActiveOk, IdentityOk, Assigned, Resolved, FormalPlan, PlanMap;
    EmptyMaps();
    assert ContextOf(d, confirmed, Some(EMPTY), ids) == ContextOf(d, confirmed, None, ids);
  }

  /** From any reachable head, loading it back after a change of basis and confirming keeps the whole chain. */
  lemma SurvivingRun(s: State, to: nat, ids: nat -> string, blank: string -> bool, fits: FieldRule)
    requires Inv(s, blank) && s.history != [] && s.draft.None? && s.history[|s.history| - 1].basis != to
    ensures var p := s.history[|s.history| - 1].plan;
            var t := Run(s, [ChangeBasis(to)] + [Create, Load(Editable(p, map[]), ids), Confirm], blank, fits);
            t.history == s.history + [Revision(p, to)] && Follows(p, p)
  {
    hide Run, Editable, Confirmable, Canonical, Normalize, Follows;
    var p := s.history[|s.history| - 1].plan;
    assert EntryOk(s.history[|s.history| - 1], blank);
    LoadingHeadIntoEmpty(p, ids);
    FollowsItself(p);
    RunConcat(s, [ChangeBasis(to)], [Create, Load(Editable(p, map[]), ids), Confirm], blank, fits);
    RunOne(s, ChangeBasis(to), blank, fits);
    var changed := s.(basis := to);
    RunThree(changed, Create, Load(Editable(p, map[]), ids), Confirm, blank, fits);
    var created := Next(changed, Create, blank, fits);
    assert created == changed.(draft := Some(Draft(EMPTY, to, |s.history|)));
    assert Next(created, Load(Editable(p, map[]), ids), blank, fits) == changed.(draft := Some(Draft(p, to, |s.history|)));
  }
}
