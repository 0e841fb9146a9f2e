/** What every reachable state and every run of the transport guarantees. */
module TransportGuarantees {
  import opened Wrappers
  import opened Transport
  import opened TransportRuns

  ghost predicate Reachable(s: State) {
    exists ls :: Run(INITIAL, ls) == Some(s)
  }

  lemma ReachableInv(s: State)
    requires Reachable(s)
    ensures Inv(s)
  {
    hide Inv, Run;
    InitialInv();
    var ls :| Run(INITIAL, ls) == Some(s);
    RunKeepsInv(INITIAL, ls);
  }

  // ----- calls and clients -----

  lemma InvParts(s: State)
    requires Inv(s)
    ensures StartsOk(s) && ClosesOk(s) && CallsOk(s)
    ensures s.sh.client.Some? <==> s.sh.phase.Open? || s.sh.phase.Draining?
    ensures Accounted(s.created, s.disposed, Held(s), BeingStarted(s), BeingClosed(s))
  {
    hide StartsOk, GenerationOk, CallsOk, NamesOk, CountsOk, CallersFit, ClosersFit, InterestOk, Accounted, Held;
    hide BeingStarted, BeingClosed;
    hide ClosesOk;
  }

  lemma HeldIsOpen(created: set<nat>, disposed: set<nat>, held: set<nat>, started: set<nat>, closed: set<nat>)
    requires Accounted(created, disposed, held, started, closed)
    ensures held <= created - disposed
  {
  }

  lemma NoClientNoCalls(s: State)
    requires CallsOk(s) && s.sh.client.None?
    ensures s.calls == map[]
  {
    assert forall k :: k !in s.calls;
  }

  lemma DisposingHoldsNothing(s: State)
    requires ClosesOk(s) && CallsOk(s) && (s.sh.client.Some? <==> s.sh.phase.Open? || s.sh.phase.Draining?)
    ensures forall t | t in s.closes :: s.closes[t].Disposing? ==> s.calls == map[]
  {
    forall t | t in s.closes && s.closes[t].Disposing?
      ensures s.calls == map[]
    {
      assert CloseFits(s, s.closes[t]);
      NoClientNoCalls(s);
    }
  }

  /** Admitted calls are counted exactly, hold the one live client, and keep it from being closed. */
  lemma CallsHoldTheClient(s: State)
    requires Reachable(s)
    ensures s.sh.active == |s.calls|
    ensures forall k | k in s.calls :: s.sh.client == Some(s.calls[k]) && s.calls[k] in s.created - s.disposed
    ensures forall t | t in s.closes :: s.closes[t].Disposing? ==> s.calls == map[]
  {
    hide Inv, Core, Reachable, BeingStarted, BeingClosed, CloseFits, Accounted, ClosesOk, StartsOk;
    ReachableInv(s);
    InvParts(s);
    HeldIsOpen(s.created, s.disposed, Held(s), BeingStarted(s), BeingClosed(s));
    DisposingHoldsNothing(s);
  }

  /** Created clients are exactly those closed, held, about to be published, or being closed; no client is two of these. */
  lemma ClientsAreConserved(s: State)
    requires Reachable(s)
    ensures s.created == s.disposed + Held(s) + BeingStarted(s) + BeingClosed(s)
    ensures |s.created| == |s.disposed| + |Held(s)| + |BeingStarted(s)| + |BeingClosed(s)|
  {
    ReachableInv(s);
    hide StartsOk, GenerationOk, ClosesOk, NamesOk, CallsOk, CountsOk, CallersFit, ClosersFit, InterestOk;
    hide Held, BeingStarted, BeingClosed;
    CountParts(s.disposed, Held(s), BeingStarted(s), BeingClosed(s));
  }

  lemma CountParts(a: set<nat>, b: set<nat>, c: set<nat>, d: set<nat>)
    requires a !! b !! c !! d
    ensures |a + b + c + d| == |a| + |b| + |c| + |d|
  {
    assert |a + b| == |a| + |b|;
    assert |a + b + c| == |a + b| + |c|;
    assert |a + b + c + d| == |a + b + c| + |d|;
  }

  // ----- lifecycle -----

  lemma LifecycleShape(s: State)
    requires Reachable(s)
    ensures s.sh.phase.Starting? <==> s.sh.startTask.Some?
    ensures s.sh.client.Some? <==> s.sh.phase.Open? || s.sh.phase.Draining?
    ensures s.sh.phase.Draining? || s.sh.phase.Closing? ==>
              s.sh.closeTask.Some? && s.sh.closeTask.value in s.closes && !CloseEnded(s, s.sh.closeTask.value)
    ensures forall t | t in s.closes && !s.closes[t].CloseDone? :: s.sh.closeTask == Some(t)
  {
    hide Inv, Core, Reachable, Accounted, Held, BeingStarted, BeingClosed, CallsOk;
    ReachableInv(s);
    InvParts(s);
  }

  lemma EntryFails(s: State, tid: nat)
    requires StartsOk(s) && GenerationOk(s) && (s.sh.phase.Draining? || s.sh.phase.Closing? ==> s.sh.closeTask.Some?)
    ensures EnterStart(s.sh, tid).1.EntryFailed? <==> s.sh.phase.Broken? && s.sh.closeTask.None?
    ensures EnterClose(s.sh, tid).1.CloseFails? <==> s.sh.phase.Broken? && s.sh.closeTask.None?
  {
  }

  /** The branches that fall through with no task to wait for run only on a broken, already closed transport. */
  lemma EntryFailsOnlyWhenBroken(s: State, tid: nat)
    requires Reachable(s)
    ensures EnterStart(s.sh, tid).1.EntryFailed? <==> s.sh.phase.Broken? && s.sh.closeTask.None?
    ensures EnterClose(s.sh, tid).1.CloseFails? <==> s.sh.phase.Broken? && s.sh.closeTask.None?
  {
    hide StartsOk, GenerationOk, ClientsOk, CallsOk, NamesOk, CountsOk, CallersFit, ClosersFit, InterestOk;
    hide EnterStart, EnterClose, Reachable;
    ReachableInv(s);
    EntryFails(s, tid);
  }

  /** A close that waited for a start finds the transport open, or broken by that very start, and a drain always finds a client. */
  lemma CloseTaskFindsItsPhase(s: State, t: nat)
    requires Reachable(s) && t in s.closes
    ensures s.closes[t].AwaitingStart? && StartEnded(s, s.closes[t].start) ==>
              s.sh.phase == if s.starts[s.closes[t].start].ok then Open else Broken
    ensures s.closes[t].Checking? || s.closes[t].Waiting? || s.closes[t].Woken? ==> s.sh.phase.Draining? && s.sh.client.Some?
  {
    ReachableInv(s);
    hide CountsOk, CallersFit, ClosersFit, CallsOk, Accounted;
  }

  lemma BrokenThroughStarters(s: State, c: nat)
    requires s.sh.phase.Broken?
    ensures CallerRegion(s, c).Some? ==> CallerRegion(s, c).value.sh.phase.Broken?
  {
  }

  lemma BrokenThroughClosers(s: State, c: nat)
    requires s.sh.phase.Broken?
    ensures CloserRegion(s, c).Some? ==> CloserRegion(s, c).value.sh.phase.Broken?
  {
  }

  lemma BrokenThroughCallers(s: State, c: nat)
    requires s.sh.phase.Broken?
    ensures CallerRegion(s, c).Some? ==> CallerRegion(s, c).value.sh.phase.Broken?
    ensures CloserRegion(s, c).Some? ==> CloserRegion(s, c).value.sh.phase.Broken?
  {
    hide CallerRegion, CloserRegion;
    BrokenThroughStarters(s, c);
    BrokenThroughClosers(s, c);
  }

  lemma BrokenThroughTasks(s: State, t: nat)
    requires StartsOk(s) && ClosesOk(s) && s.sh.phase.Broken?
    ensures forall made :: StartTask(s, t, made).None?
    ensures forall ok :: CloseTask(s, t, ok).Some? ==> CloseTask(s, t, ok).value.sh.phase.Broken?
  {
  }

  /** Nothing leaves BROKEN. */
  lemma BrokenIsForever(s: State, l: Label)
    requires Reachable(s) && s.sh.phase.Broken? && Step(s, l).Some?
    ensures Step(s, l).value.sh.phase.Broken?
  {
    hide StartsOk, GenerationOk, ClosesOk, ClientsOk, CallsOk, NamesOk, CountsOk, CallersFit, ClosersFit, InterestOk;
    hide CallerRegion, CloserRegion, StartTask, CloseTask, Reachable, CallerResumed, CallerCancelled;
    ReachableInv(s);
    match l
    case StartRegion(c) => BrokenThroughCallers(s, c);
    case CloseRegion(c) => BrokenThroughCallers(s, c);
    case StartTaskStep(t, _) => BrokenThroughTasks(s, t);
    case CloseTaskStep(t, _) => BrokenThroughTasks(s, t);
    case _ =>
  }

  /** The final clearing in `aclose` never removes a newer close task. */
  lemma FinishedCloseClearsNothing(s: State, c: nat)
    requires Reachable(s) && c in s.closers && s.closers[c].Clearing?
    ensures Step(s, CloseRegion(c)).Some? && Step(s, CloseRegion(c)).value.sh == s.sh
  {
    ReachableInv(s);
    ClearingIsIdle(s, c);
  }

  // ----- start ownership -----

  /** Every generation's counters equal its registered callers, and an open transport nobody is closing is wanted. */
  lemma StartsAreCounted(s: State)
    requires Reachable(s)
    ensures forall g | g in s.sh.gens ::
              s.sh.gens[g] == Generation(|Waiters(s.callers, g)|, |Owners(s.callers, g)|)
    ensures s.sh.phase.Open? && s.sh.closeTask.None? ==>
              s.sh.startGen.Some? && Waiters(s.callers, s.sh.startGen.value) + Owners(s.callers, s.sh.startGen.value) != {}
  {
    ReachableInv(s);
    hide ClosesOk, ClientsOk, CallsOk, CallersFit, ClosersFit;
  }

  /** What a start finds at its entry: a close to wait for, an open transport to share, a start to join or to begin, or a broken one. */
  lemma StartEntryIs(s: State, c: nat)
    requires Reachable(s) && c in s.callers && s.callers[c].AtEntry?
    ensures Step(s, StartRegion(c)).Some?
    ensures var t := Step(s, StartRegion(c)).value;
            c in t.callers &&
            var at := t.callers[c];
            if s.sh.closeTask.Some? then at == WaitingForClose(s.sh.closeTask.value) && t.sh == s.sh
            else if s.sh.phase.Open? then s.sh.startGen.Some? && at == Owner(s.sh.startGen.value) && t.sh == s.sh.(gens := t.sh.gens)
            else if s.sh.phase.Starting? then
              && s.sh.startGen.Some? && s.sh.startTask.Some?
              && at == WaitingForStart(s.sh.startGen.value, s.sh.startTask.value) && t.sh == s.sh.(gens := t.sh.gens)
            else if s.sh.phase.Broken? then at == StartFailed && t.sh == s.sh
            else
              && at == WaitingForStart(s.next, s.next) && t.starts == s.starts[s.next := Creating]
              && t.sh.phase.Starting? && t.sh.startTask == Some(s.next) == t.sh.startGen
  {
    hide ClosesOk, ClientsOk, CallsOk, NamesOk, CountsOk, CallersFit, ClosersFit, InterestOk, Reachable, Counted;
    ReachableInv(s);
    ClosingHasTask(s);
  }

  lemma ClosingHasTask(s: State)
    requires Inv(s)
    ensures s.sh.phase.Draining? || s.sh.phase.Closing? ==> s.sh.closeTask.Some?
  {
    hide StartsOk, GenerationOk, ClientsOk, CallsOk, NamesOk, CountsOk, CallersFit, ClosersFit, InterestOk, CloseFits;
  }

  /** A start task that made a client opens the transport with it; one that made none breaks it. */
  lemma StartTaskPublishes(s: State, t: nat, made: Option<nat>)
    requires Reachable(s) && t in s.starts && s.starts[t].Created?
    ensures Step(s, StartTaskStep(t, made)).Some?
    ensures var c := s.starts[t].made;
            var u := Step(s, StartTaskStep(t, made)).value;
            && u.starts == s.starts[t := StartDone(c.Some?)]
            && u.sh.client == c && u.sh.startTask.None?
            && u.sh.phase == (if c.Some? then Open else Broken)
  {
    hide ClosesOk, ClientsOk, CallsOk, NamesOk, CountsOk, CallersFit, ClosersFit, InterestOk, GenerationOk, Reachable;
    ReachableInv(s);
  }

  /** What an `aclose` finds at its entry: nothing to close, a broken transport nobody closes, or a live close to settle, begun if there was none. */
  lemma CloseEntryIs(s: State, c: nat)
    requires Reachable(s) && c in s.closers && s.closers[c].CloserAtEntry?
    ensures Step(s, CloseRegion(c)).Some?
    ensures var t := Step(s, CloseRegion(c)).value;
            c in t.closers &&
            var at := t.closers[c];
            if s.sh.phase.New? || s.sh.phase.Closed? then at == CloserReturned && t.sh.phase.Closed? && t.closes == s.closes
            else if s.sh.closeTask.Some? then at == Settling(s.sh.closeTask.value, false) && t.sh == s.sh && t.closes == s.closes
            else if s.sh.phase.Broken? then at == CloserFailed && t.sh == s.sh && t.closes == s.closes
            else
              && at == Settling(s.next, false) && t.sh.closeTask == Some(s.next)
              && (s.sh.phase.Starting? ==>
                    s.sh.startTask.Some? && t.sh.phase.Starting?
                    && t.closes == s.closes[s.next := AwaitingStart(s.sh.startTask.value)])
              && (s.sh.phase.Open? ==> t.sh.phase.Draining? && t.closes == s.closes[s.next := Checking])
  {
    hide ClosesOk, ClientsOk, CallsOk, NamesOk, CountsOk, CallersFit, ClosersFit, InterestOk, GenerationOk, Reachable;
    ReachableInv(s);
    ClosingHasTask(s);
  }

  ghost function RegionGens(s: State, at: Caller): map<nat, Generation>
    requires at.Finishing? || at.RollingBack?
  {
    if at.Finishing? then Counted(s.sh.gens, at.gen, -1, if at.claim then 1 else 0)
    else if at.relinquish then Counted(s.sh.gens, at.gen, 0, -1)
    else s.sh.gens
  }

  lemma SpawnAddsKey(s: State, start: Option<nat>, gens: map<nat, Generation>, c: nat, at: Caller)
    requires GenerationOk(s) && ClosesOk(s) && NamesOk(s) && StartsOk(s) && start.Some? && s.sh.startGen.Some?
    ensures var (sh, _, spawn) := EnsureCloseIntent(s.sh.(gens := gens), start, s.next);
            var t := Moved(Spawned(s.(sh := sh), spawn), c, at);
            && (t.closes.Keys != s.closes.Keys <==> s.sh.closeTask.None?)
            && t.sh.gens == gens && t.sh.startGen == s.sh.startGen
  {
    assert s.next !in s.closes;
  }

  lemma FinishShape(s: State, c: nat, at: Caller)
    requires GenerationOk(s) && ClosesOk(s) && NamesOk(s) && StartsOk(s)
    requires at.Finishing? && CallerFits(at, s.starts, s.closes)
    ensures var t := FinishStep(s, c, at);
            && t.sh.gens == RegionGens(s, at) && at.gen in t.sh.gens && t.sh.startGen == s.sh.startGen
            && (t.closes.Keys != s.closes.Keys <==>
                  at.rollbackIfLast && s.sh.closeTask.None? && NoInterest(t.sh, at.gen))
            && (s.sh.startGen != Some(at.gen) ==> t.sh == s.sh.(gens := RegionGens(s, at)))
  {
    var gens := RegionGens(s, at);
    if at.rollbackIfLast && NoInterest(s.sh.(gens := gens), at.gen) {
      hide StartsOk, GenerationOk, ClosesOk, EnsureCloseIntent, Spawned;
      var rollback := EnsureCloseIntent(s.sh.(gens := gens), Some(at.task), s.next).1;
      SpawnAddsKey(s, Some(at.task), gens, c, AfterRollback(rollback));
    }
  }

  lemma RollbackShape(s: State, c: nat, at: Caller)
    requires GenerationOk(s) && ClosesOk(s) && NamesOk(s) && StartsOk(s)
    requires at.RollingBack? && CallerFits(at, s.starts, s.closes)
    ensures var t := RollbackStep(s, c, at);
            && t.sh.gens == RegionGens(s, at) && at.gen in t.sh.gens && t.sh.startGen == s.sh.startGen
            && (t.closes.Keys != s.closes.Keys <==> s.sh.closeTask.None? && NoInterest(t.sh, at.gen))
            && (s.sh.startGen != Some(at.gen) ==> t.sh == s.sh.(gens := RegionGens(s, at)))
  {
    var gens := RegionGens(s, at);
    if NoInterest(s.sh.(gens := gens), at.gen) {
      hide StartsOk, GenerationOk, ClosesOk, EnsureCloseIntent, Spawned;
      var rollback := EnsureCloseIntent(s.sh.(gens := gens), Some(at.task), s.next).1;
      SpawnAddsKey(s, Some(at.task), gens, c, AfterRollback(rollback));
    }
  }

  ghost predicate Withdraws(at: Caller) {
    (at.Finishing? && at.rollbackIfLast) || at.RollingBack?
  }

  lemma NoInterestMeansNobody(t: State, g: nat)
    requires Inv(t) && g in t.sh.gens
    ensures NoInterest(t.sh, g) <==> t.sh.startGen == Some(g) && Waiters(t.callers, g) + Owners(t.callers, g) == {}
  {
    hide StartsOk, GenerationOk, ClosesOk, ClientsOk, CallsOk, NamesOk, CallersFit, ClosersFit, InterestOk, Waiters;
    hide Owners;
  }

  /**
    A caller's last region begins a close exactly when it withdraws the last
    interest in the current generation and no close is under way; in an older
    generation it changes nothing but that generation's own counters.
  */
  lemma CloseBeginsWithTheLastInterest(s: State, c: nat)
    requires Reachable(s) && c in s.callers && (s.callers[c].Finishing? || s.callers[c].RollingBack?)
    ensures var at := s.callers[c];
            var t := Step(s, StartRegion(c)).value;
            && (t.closes.Keys != s.closes.Keys <==>
                  && Withdraws(at) && s.sh.closeTask.None?
                  && s.sh.startGen == Some(at.gen) && Waiters(t.callers, at.gen) + Owners(t.callers, at.gen) == {})
            && (s.sh.startGen != Some(at.gen) ==> t.sh == s.sh.(gens := RegionGens(s, at)))
  {
    hide StartsOk, GenerationOk, ClosesOk, ClientsOk, CallsOk, NamesOk, CountsOk, CallersFit, ClosersFit, InterestOk;
    hide FinishStep, RollbackStep, NoInterest, Waiters, Owners, RegionGens, Reachable;
    ReachableInv(s);
    FitsOf(s, c);
    RegionKeepsInv(s, c);
    if s.callers[c].Finishing? {
      FinishShape(s, c, s.callers[c]);
    } else {
      RollbackShape(s, c, s.callers[c]);
    }
    NoInterestMeansNobody(Step(s, StartRegion(c)).value, s.callers[c].gen);
  }

  // ----- how callers and calls end -----

  lemma RunTwo(s: State, a: Label, b: Label)
    requires Step(s, a).Some?
    ensures Run(s, [a, b]) == Step(Step(s, a).value, b)
  {
    var t := Step(s, a).value;
    assert [a, b][1..] == [b] && [b][1..] == [];
    if Step(t, b).Some? {
      assert Run(Step(t, b).value, []) == Step(t, b);
    }
  }

  /** A start that waited to the end owns the transport if the start it waited for succeeded, and fails if that failed. */
  lemma WaiterOutcome(s: State, c: nat)
    requires c in s.callers && s.callers[c].WaitingForStart? && StartEnded(s, s.callers[c].task)
    ensures var t := Run(s, [StartResumes(c), StartRegion(c)]);
            && t.Some? && c in t.value.callers && t.value.closes == s.closes
            && Step(t.value, StartResumes(c)).Some?
            && var u := Step(t.value, StartResumes(c)).value;
               c in u.callers && u.callers[c] == if s.starts[s.callers[c].task].ok then Owner(s.callers[c].gen) else StartFailed
  {
    RunTwo(s, StartResumes(c), StartRegion(c));
  }

  /** A cancelled start leaves at once, or waits for the close its leaving began or met. */
  lemma CancelledStartLeaves(s: State, c: nat)
    requires c in s.callers && s.callers[c].WaitingForStart?
    ensures var t := Run(s, [StartIsCancelled(c), StartRegion(c)]);
            && t.Some? && c in t.value.callers
            && (t.value.callers[c].StartCancelled?
                || (t.value.callers[c].AwaitingRollback? && t.value.sh.closeTask == Some(t.value.callers[c].task)))
  {
    RunTwo(s, StartIsCancelled(c), StartRegion(c));
  }

  /** An `aclose` that settled a close returns if the client was closed, and fails if not. */
  lemma CloserOutcome(s: State, c: nat)
    requires c in s.closers && s.closers[c].Settling? && !s.closers[c].cancelled && CloseEnded(s, s.closers[c].task)
    ensures var t := Run(s, [CloseResumes(c), CloseRegion(c)]);
            && t.Some? && c in t.value.closers
            && t.value.closers[c] == if s.closes[s.closers[c].task].ok then CloserReturned else CloserFailed
  {
    RunTwo(s, CloseResumes(c), CloseRegion(c));
  }

  /** A call that ends leaves the others running; the last one wakes every close asleep on the drain. */
  lemma CallEndsAlone(s: State, k: nat)
    requires Reachable(s) && k in s.calls
    ensures Step(s, FinalizeStep(k)).Some?
    ensures var t := Step(s, FinalizeStep(k)).value;
            && t.calls == s.calls - {k} && t.sh == s.sh.(active := s.sh.active - 1)
            && t.closes.Keys == s.closes.Keys
            && forall c | c in s.closes ::
                 t.closes[c] == if |s.calls| == 1 && s.closes[c].Waiting? then Woken else s.closes[c]
  {
    hide Inv, Core, Reachable;
    CallsHoldTheClient(s);
  }

  // ----- a close always ends -----

  /** Steps of the internal tasks and ends of calls; everything else is callers coming, waiting or leaving. */
  predicate IsProgress(l: Label) {
    l.StartTaskStep? || l.CloseTaskStep? || l.FinalizeStep?
  }

  function ProgressCount(ls: seq<Label>): nat {
    if ls == [] then 0 else (if IsProgress(ls[0]) then 1 else 0) + ProgressCount(ls[1..])
  }

  ghost function TaskRank(s: State, pc: ClosePc): nat {
    match pc
    case AwaitingStart(g) =>
      6 + if g in s.starts then (match s.starts[g] case Creating => 2 case Created(_) => 1 case StartDone(_) => 0) else 0
    case Checking => 5
    case Waiting => 4
    case Woken => 3
    case Disposing(_) => 2
    case Disposed(_) => 1
    case CloseDone(_) => 0
  }

  /** How many progress steps are left before close task `t` is done. */
  ghost function Rank(s: State, t: nat): nat
    requires t in s.closes
  {
    TaskRank(s, s.closes[t]) + |s.calls|
  }

  ghost predicate Live(s: State, t: nat) {
    t in s.closes && !s.closes[t].CloseDone?
  }

  /** While a close is live, callers cannot disturb it: they keep its place, the start it waits for, and the calls. */
  ghost predicate Undisturbed(s: State, u: State, t: nat) {
    && t in s.closes && t in u.closes && u.closes[t] == s.closes[t]
    && u.starts == s.starts && u.calls == s.calls
  }

  lemma StartersDisturbNothing(s: State, t: nat, c: nat)
    requires ClosesOk(s) && NamesOk(s) && Live(s, t)
    ensures CallerRegion(s, c).Some? ==> Undisturbed(s, CallerRegion(s, c).value, t)
  {
    assert s.sh.closeTask == Some(t) && t < s.next;
  }

  lemma ClosersDisturbNothing(s: State, t: nat, c: nat)
    requires ClosesOk(s) && NamesOk(s) && Live(s, t)
    ensures CloserRegion(s, c).Some? ==> Undisturbed(s, CloserRegion(s, c).value, t)
  {
    assert s.sh.closeTask == Some(t) && t < s.next;
  }

  lemma CallersDisturbNothing(s: State, t: nat, c: nat)
    requires ClosesOk(s) && NamesOk(s) && Live(s, t)
    ensures CallerRegion(s, c).Some? ==> Undisturbed(s, CallerRegion(s, c).value, t)
    ensures CloserRegion(s, c).Some? ==> Undisturbed(s, CloserRegion(s, c).value, t)
  {
    hide CallerRegion, CloserRegion, Undisturbed, ClosesOk, NamesOk, Live;
    StartersDisturbNothing(s, t, c);
    ClosersDisturbNothing(s, t, c);
  }

  /** A call is admitted, and lent the client, exactly on an open transport nobody is closing, however many are running. */
  lemma AdmissionIs(s: State, k: nat)
    requires Reachable(s) && k !in s.calls
    ensures Step(s, AdmitStep(k)).Some?
    ensures var t := Step(s, AdmitStep(k)).value;
            if s.sh.phase.Open? && s.sh.closeTask.None? then
              && s.sh.client.Some?
              && t == s.(sh := s.sh.(active := s.sh.active + 1), calls := s.calls[k := s.sh.client.value])
            else t == s
  {
    hide Inv, Core, Reachable;
    LifecycleShape(s);
  }

  /** Once a close intent exists no call is admitted. */
  lemma NothingAdmittedWhileClosing(s: State, k: nat)
    requires s.sh.closeTask.Some? && Step(s, AdmitStep(k)).Some?
    ensures Step(s, AdmitStep(k)).value == s
  {
  }

  lemma StartTaskRank(s: State, t: nat, l: Label)
    requires StartsOk(s) && ClosesOk(s) && Live(s, t) && l.StartTaskStep? && Step(s, l).Some?
    ensures var u := Step(s, l).value;
            u.closes == s.closes && u.calls == s.calls && Rank(u, t) < Rank(s, t)
  {
    assert s.sh.closeTask == Some(t) && CloseFits(s, s.closes[t]) && s.sh.startTask == Some(l.t);
  }

  lemma CloseTaskRank(s: State, t: nat, l: Label)
    requires ClosesOk(s) && CallsOk(s) && Live(s, t) && l.CloseTaskStep? && Step(s, l).Some?
    ensures var u := Step(s, l).value;
            t in u.closes && u.calls == s.calls && (Live(u, t) ==> Rank(u, t) < Rank(s, t))
  {
    assert s.sh.closeTask == Some(t) && l.t == t;
  }

  lemma FinalizeRank(s: State, t: nat, l: Label)
    requires Live(s, t) && l.FinalizeStep? && Step(s, l).Some?
    ensures var u := Step(s, l).value;
            Live(u, t) && u.starts == s.starts && Rank(u, t) < Rank(s, t)
  {
    var calls := s.calls - {l.k};
    assert s.calls.Keys == calls.Keys + {l.k};
    assert |s.calls.Keys| == |s.calls| && |calls.Keys| == |calls|;
  }

  lemma StepRank(s: State, t: nat, l: Label)
    requires Inv(s) && Live(s, t) && Step(s, l).Some?
    ensures var u := Step(s, l).value;
            t in u.closes && (Live(u, t) ==> Rank(u, t) + One(IsProgress(l)) <= Rank(s, t))
  {
    hide StartsOk, GenerationOk, ClientsOk, CallsOk, NamesOk, CountsOk, CallersFit, ClosersFit, InterestOk;
    hide CallerRegion, CloserRegion, StartTask, CloseTask, AdmitCall, FinalizeCallStep, CallerResumed, CallerCancelled;
    match l
    case StartRegion(c) => CallersDisturbNothing(s, t, c);
    case CloseRegion(c) => CallersDisturbNothing(s, t, c);
    case StartTaskStep(_, _) => StartTaskRank(s, t, l);
    case CloseTaskStep(_, _) => CloseTaskRank(s, t, l);
    case FinalizeStep(_) => FinalizeRank(s, t, l);
    case AdmitStep(k) => NothingAdmittedWhileClosing(s, k);
    case _ =>
  }

  /** When a close ends, the transport is CLOSED or BROKEN according to its answer. */
  lemma CloseEndsClosedOrBroken(s: State, t: nat, l: Label)
    requires Inv(s) && Live(s, t) && Step(s, l).Some? && CloseEnded(Step(s, l).value, t)
    ensures var u := Step(s, l).value;
            u.sh.closeTask.None? && u.sh.phase == if u.closes[t].ok then Closed else Broken
  {
    hide StartsOk, GenerationOk, ClientsOk, CallsOk, NamesOk, CountsOk, CallersFit, ClosersFit, InterestOk;
    hide CallerRegion, CloserRegion, StartTask, CloseTask, AdmitCall, FinalizeCallStep, CallerResumed;
    hide CallerCancelled, Rank;
    match l
    case StartRegion(c) => CallersDisturbNothing(s, t, c);
    case CloseRegion(c) => CallersDisturbNothing(s, t, c);
    case StartTaskStep(_, _) => StartTaskRank(s, t, l);
    case CloseTaskStep(_, _) => EndOfCloseTask(s, t, l);
    case FinalizeStep(_) => FinalizeRank(s, t, l);
    case AdmitStep(k) => NothingAdmittedWhileClosing(s, k);
    case _ =>
  }

  lemma EndOfCloseTask(s: State, t: nat, l: Label)
    requires ClosesOk(s) && Live(s, t) && l.CloseTaskStep? && Step(s, l).Some? && CloseEnded(Step(s, l).value, t)
    ensures var u := Step(s, l).value;
            u.sh.closeTask.None? && u.sh.phase == if u.closes[t].ok then Closed else Broken
  {
    assert s.sh.closeTask == Some(t) && CloseFits(s, s.closes[t]) && l.t == t;
  }

  /** A live close can always be moved on by an internal task or by a call that ends. */
  lemma CloseIsNeverStuck(s: State, t: nat)
    requires Reachable(s) && Live(s, t)
    ensures exists l :: IsProgress(l) && Step(s, l).Some?
  {
    hide CountsOk, CallersFit, ClosersFit, NamesOk, ClientsOk, InterestOk, Reachable;
    ReachableInv(s);
    match s.closes[t]
    case AwaitingStart(g) =>
      if StartEnded(s, g) {
        assert Step(s, CloseTaskStep(t, true)).Some?;
      } else {
        assert Step(s, StartTaskStep(g, None)).Some?;
      }
    case Waiting =>
      var k :| k in s.calls;
      assert Step(s, FinalizeStep(k)).Some?;
    case CloseDone(_) =>
    case Checking | Woken | Disposing(_) | Disposed(_) =>
      assert Step(s, CloseTaskStep(t, true)).Some?;
  }

  /**
    Whatever callers do meanwhile, a run with more progress steps than the
    rank of a live close passes through a state where that close has ended
    with the transport CLOSED or BROKEN.
  */
  lemma {:induction false} CloseTerminates(s: State, t: nat, ls: seq<Label>) returns (n: nat)
    requires Inv(s) && Live(s, t) && Run(s, ls).Some? && ProgressCount(ls) > Rank(s, t)
    ensures n <= |ls| && Run(s, ls[..n]).Some?
    ensures var u := Run(s, ls[..n]).value;
            CloseEnded(u, t) && u.sh.phase == if u.closes[t].ok then Closed else Broken
    decreases |ls|
  {
    hide Inv, Step, Rank;
    var l, u := ls[0], Step(s, ls[0]).value;
    StepKeepsInv(s, l);
    StepRank(s, t, l);
    if Live(u, t) {
      n := CloseTerminates(u, t, ls[1..]);
      assert ls[..n + 1] == [l] + ls[1..][..n];
      n := n + 1;
    } else {
      CloseEndsClosedOrBroken(s, t, l);
      n := 1;
      assert ls[..1] == [l] && [l][1..] == [];
    }
  }
}
