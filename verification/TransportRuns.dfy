/**
  Every interleaving of the transport's callers, calls and internal tasks.

  A label names one atomic step: a locked region, the end of an outside await,
  a cancellation delivered to a caller, or the arrival of a new caller.  Tasks
  and callers stay in the maps after they end, so a late waiter can still read
  a finished task.  The internal start and close tasks are never cancelled.
*/
module TransportRuns {
  import opened Wrappers
  import opened Transport

  datatype StartPc = Creating | Created(made: Option<nat>) | StartDone(ok: bool)

  datatype ClosePc =
    | AwaitingStart(start: nat)
    | Checking                       // about to test the drain condition for the first time
    | Waiting                        // asleep on the drain condition
    | Woken                          // notified, about to test it again
    | Disposing(client: Option<nat>) // closing the client outside the lock
    | Disposed(ok: bool)
    | CloseDone(ok: bool)

  /** Where one caller of `start` is. */
  datatype Caller =
    | AtEntry
    | WaitingForClose(task: nat)
    | WaitingForStart(gen: nat, task: nat)
    | Finishing(gen: nat, task: nat, claim: bool, rollbackIfLast: bool, cancelled: bool)
    | Finished(gen: nat, task: nat, ok: bool, cancelled: bool)
    | RollingBack(gen: nat, task: nat, relinquish: bool)
    | AwaitingRollback(task: nat)
    | Owner(gen: nat)
    | StartFailed
    | StartCancelled

  /** Where one caller of `aclose` is. */
  datatype Closer =
    | CloserAtEntry
    | Settling(task: nat, cancelled: bool)
    | Clearing(task: nat, ok: bool, cancelled: bool)
    | CloserReturned
    | CloserFailed
    | CloserCancelled

  datatype State = State(
    sh: Shared,
    starts: map<nat, StartPc>,
    closes: map<nat, ClosePc>,
    callers: map<nat, Caller>,
    closers: map<nat, Closer>,
    calls: map<nat, nat>,   // admitted and not yet finalised, with the client each was lent
    created: set<nat>,
    disposed: set<nat>,
    next: nat)

  const INITIAL := State(FRESH, map[], map[], map[], map[], map[], {}, {}, 0)

  datatype Label =
    | CallStart(c: nat) | StartRegion(c: nat) | StartResumes(c: nat) | StartIsCancelled(c: nat)
    | CallClose(c: nat) | CloseRegion(c: nat) | CloseResumes(c: nat) | CloseIsCancelled(c: nat)
    | StartTaskStep(t: nat, made: Option<nat>)
    | CloseTaskStep(t: nat, ok: bool)
    | AdmitStep(k: nat)
    | FinalizeStep(k: nat)

  // ----- one step -----

  function Spawned(s: State, spawn: Spawn): State {
    match spawn
    case NoSpawn => s
    case SpawnClose => s.(closes := s.closes[s.next := Checking], next := s.next + 1)
    case SpawnCloseAfterStart(g) => s.(closes := s.closes[s.next := AwaitingStart(g)], next := s.next + 1)
  }

  function Moved(s: State, c: nat, at: Caller): State {
    s.(callers := s.callers[c := at])
  }

  function EntryStep(s: State, c: nat): State {
    var (sh, entry) := EnterStart(s.sh, s.next);
    var t := s.(sh := sh);
    match entry
    case EntryFailed => Moved(t, c, StartFailed)
    case EntryWaitsForClose(task) => Moved(t, c, WaitingForClose(task))
    case EntryOwns(g) => Moved(t, c, Owner(g))
    case EntryWaitsForStart(g, task) => Moved(t, c, WaitingForStart(g, task))
    case EntrySpawns(g, task) =>
      Moved(t.(starts := s.starts[task := Creating], next := s.next + 1), c, WaitingForStart(g, task))
  }

  function AfterRollback(rollback: Option<nat>): Caller {
    if rollback.Some? then AwaitingRollback(rollback.value) else StartCancelled
  }

  function FinishStep(s: State, c: nat, at: Caller): State
    requires at.Finishing?
  {
    var (sh, rollback, spawn) := FinishStartIntent(s.sh, at.gen, at.task, at.claim, at.rollbackIfLast, s.next);
    Moved(Spawned(s.(sh := sh), spawn), c,
          if at.rollbackIfLast then AfterRollback(rollback)
          else Finished(at.gen, at.task, at.claim, at.cancelled))
  }

  function RollbackStep(s: State, c: nat, at: Caller): State
    requires at.RollingBack?
  {
    var (sh, rollback, spawn) := RollbackUnownedStart(s.sh, at.gen, at.task, at.relinquish, s.next);
    Moved(Spawned(s.(sh := sh), spawn), c, AfterRollback(rollback))
  }

  function CallerRegion(s: State, c: nat): Option<State> {
    if c !in s.callers then None
    else
      match s.callers[c]
      case AtEntry => Some(EntryStep(s, c))
      case Finishing(_, _, _, _, _) => Some(FinishStep(s, c, s.callers[c]))
      case RollingBack(_, _, _) => Some(RollbackStep(s, c, s.callers[c]))
      case _ => None
  }

  predicate CloseEnded(s: State, t: nat) { t in s.closes && s.closes[t].CloseDone? }

  predicate StartEnded(s: State, t: nat) { t in s.starts && s.starts[t].StartDone? }

  function CallerResumed(s: State, at: Caller): Option<Caller> {
    match at
    case WaitingForClose(t) => if CloseEnded(s, t) then Some(AtEntry) else None
    case WaitingForStart(g, t) => if StartEnded(s, t) then Some(Finishing(g, t, s.starts[t].ok, false, false)) else None
    case Finished(g, t, ok, cancelled) =>
      Some(if cancelled then RollingBack(g, t, ok) else if ok then Owner(g) else StartFailed)
    case AwaitingRollback(t) => if CloseEnded(s, t) then Some(StartCancelled) else None
    case _ => None
  }

  /** A cancellation lands on the await the caller is in; once it is settling a cleanup task it is only remembered. */
  function CallerCancelled(at: Caller): Option<Caller> {
    match at
    case AtEntry | WaitingForClose(_) => Some(StartCancelled)
    case WaitingForStart(g, t) => Some(Finishing(g, t, false, true, true))
    case Finishing(g, t, claim, last, _) => Some(Finishing(g, t, claim, last, true))
    case Finished(g, t, ok, _) => Some(Finished(g, t, ok, true))
    case RollingBack(_, _, _) | AwaitingRollback(_) => Some(at)
    case _ => None
  }

  function CloserMoved(s: State, c: nat, at: Closer): State {
    s.(closers := s.closers[c := at])
  }

  function CloserRegion(s: State, c: nat): Option<State> {
    if c !in s.closers then None
    else
      match s.closers[c]
      case CloserAtEntry =>
        var (sh, entry, spawn) := EnterClose(s.sh, s.next);
        Some(CloserMoved(Spawned(s.(sh := sh), spawn), c,
                         match entry
                         case CloseReturns => CloserReturned
                         case CloseFails => CloserFailed
                         case CloseSettles(t) => Settling(t, false)))
      case Clearing(t, ok, cancelled) =>
        Some(CloserMoved(s.(sh := ForgetClose(s.sh, t)), c,
                         if cancelled then CloserCancelled else if ok then CloserReturned else CloserFailed))
      case _ => None
  }

  function CloserResumed(s: State, at: Closer): Option<Closer> {
    match at
    case Settling(t, cancelled) => if CloseEnded(s, t) then Some(Clearing(t, s.closes[t].ok, cancelled)) else None
    case _ => None
  }

  function CloserInterrupted(at: Closer): Option<Closer> {
    match at
    case CloserAtEntry | Clearing(_, _, _) => Some(CloserCancelled)
    case Settling(t, _) => Some(Settling(t, true))
    case _ => None
  }

  function StartTask(s: State, t: nat, made: Option<nat>): Option<State> {
    if t !in s.starts then None
    else
      match s.starts[t]
      case Creating =>
        if made.Some? && made.value in s.created then None
        else Some(s.(starts := s.starts[t := Created(made)],
                     created := s.created + if made.Some? then {made.value} else {}))
      case Created(c) =>
        Some(s.(sh := PublishStart(s.sh, t, c), starts := s.starts[t := StartDone(c.Some?)]))
      case StartDone(_) => None
  }

  function DrainStep(s: State, t: nat): State {
    var (sh, taken) := Drain(s.sh);
    s.(sh := sh, closes := s.closes[t := if taken.None? then Waiting else Disposing(taken.value)])
  }

  function CloseTask(s: State, t: nat, ok: bool): Option<State> {
    if t !in s.closes then None
    else
      match s.closes[t]
      case AwaitingStart(g) =>
        if !StartEnded(s, g) then None
        else
          var (sh, answer) := CloseAfterStart(s.sh, t, s.starts[g].ok);
          Some(s.(sh := sh, closes := s.closes[t := if answer.Some? then CloseDone(answer.value) else Checking]))
      case Checking | Woken => Some(DrainStep(s, t))
      case Disposing(c) =>
        Some(s.(closes := s.closes[t := Disposed(ok || c.None?)],
                disposed := s.disposed + if c.Some? then {c.value} else {}))
      case Disposed(worked) =>
        Some(s.(sh := PublishClose(s.sh, t, worked), closes := s.closes[t := CloseDone(worked)]))
      case Waiting | CloseDone(_) => None
  }

  function AdmitCall(s: State, k: nat): Option<State> {
    if k in s.calls then None
    else
      var (sh, lent) := Admit(s.sh);
      Some(if lent.Some? then s.(sh := sh, calls := s.calls[k := lent.value]) else s.(sh := sh))
  }

  function NotifyAll(closes: map<nat, ClosePc>): map<nat, ClosePc> {
    map t | t in closes :: if closes[t].Waiting? then Woken else closes[t]
  }

  function FinalizeCallStep(s: State, k: nat): Option<State> {
    if k !in s.calls then None
    else
      var (sh, notify) := FinalizeCall(s.sh);
      Some(s.(sh := sh, calls := s.calls - {k}, closes := if notify then NotifyAll(s.closes) else s.closes))
  }

  /** The state after a step, or `None` when the step cannot be taken. */
  function Step(s: State, l: Label): Option<State> {
    match l
    case CallStart(c) => if c in s.callers then None else Some(Moved(s, c, AtEntry))
    case StartRegion(c) => CallerRegion(s, c)
    case StartResumes(c) =>
      if c in s.callers && CallerResumed(s, s.callers[c]).Some?
      then Some(Moved(s, c, CallerResumed(s, s.callers[c]).value)) else None
    case StartIsCancelled(c) =>
      if c in s.callers && CallerCancelled(s.callers[c]).Some?
      then Some(Moved(s, c, CallerCancelled(s.callers[c]).value)) else None
    case CallClose(c) => if c in s.closers then None else Some(CloserMoved(s, c, CloserAtEntry))
    case CloseRegion(c) => CloserRegion(s, c)
    case CloseResumes(c) =>
      if c in s.closers && CloserResumed(s, s.closers[c]).Some?
      then Some(CloserMoved(s, c, CloserResumed(s, s.closers[c]).value)) else None
    case CloseIsCancelled(c) =>
      if c in s.closers && CloserInterrupted(s.closers[c]).Some?
      then Some(CloserMoved(s, c, CloserInterrupted(s.closers[c]).value)) else None
    case StartTaskStep(t, made) => StartTask(s, t, made)
    case CloseTaskStep(t, ok) => CloseTask(s, t, ok)
    case AdmitStep(k) => AdmitCall(s, k)
    case FinalizeStep(k) => FinalizeCallStep(s, k)
  }

  function Run(s: State, ls: seq<Label>): Option<State>
    decreases |ls|
  {
    if ls == [] then Some(s)
    else if Step(s, ls[0]).None? then None
    else Run(Step(s, ls[0]).value, ls[1..])
  }

  // ----- the invariant -----

  ghost predicate WaitsIn(at: Caller, g: nat) {
    (at.WaitingForStart? || at.Finishing?) && at.gen == g
  }

  ghost predicate OwnsIn(at: Caller, g: nat) {
    || (at.Owner? && at.gen == g)
    || (at.Finished? && at.gen == g && at.ok)
    || (at.RollingBack? && at.gen == g && at.relinquish)
  }

  ghost function Waiters(callers: map<nat, Caller>, g: nat): set<nat> {
    set c | c in callers && WaitsIn(callers[c], g)
  }

  ghost function Owners(callers: map<nat, Caller>, g: nat): set<nat> {
    set c | c in callers && OwnsIn(callers[c], g)
  }

  /** Only the current start task is unfinished, and it exists exactly while STARTING. */
  ghost predicate StartsOk(s: State) {
    && (s.sh.phase.Starting? <==> s.sh.startTask.Some?)
    && (forall t | t in s.starts :: !s.starts[t].StartDone? ==> s.sh.startTask == Some(t))
    && (s.sh.startTask.Some? ==>
          var t := s.sh.startTask.value;
          t in s.starts && !s.starts[t].StartDone? && s.sh.startGen == Some(t))
  }

  ghost predicate GenerationOk(s: State) {
    && (s.sh.startGen.Some? <==> (s.sh.phase.Starting? || s.sh.phase.Open? || s.sh.phase.Draining? || s.sh.phase.Closing?))
    && (s.sh.startGen.Some? ==>
          var g := s.sh.startGen.value;
          g in s.starts && (!s.sh.phase.Starting? ==> s.starts[g] == StartDone(true)))
  }

  /** What the phase must be while the close task is at `pc`. */
  ghost predicate CloseFits(s: State, pc: ClosePc) {
    match pc
    case AwaitingStart(g) =>
      && g in s.starts
      && (s.sh.phase.Starting? ==> s.sh.startTask == Some(g))
      && (s.sh.phase.Open? ==> s.starts[g] == StartDone(true))
      && (s.sh.phase.Broken? ==> s.starts[g] == StartDone(false))
      && (s.sh.phase.Starting? || s.sh.phase.Open? || s.sh.phase.Broken?)
    case Checking | Waiting | Woken => s.sh.phase == Draining
    case Disposing(c) => s.sh.phase == Closing && c.Some?
    case Disposed(_) => s.sh.phase == Closing
    case CloseDone(_) => false
  }

  /** Only the current close task is unfinished, and DRAINING and CLOSING always have one. */
  ghost predicate ClosesOk(s: State) {
    && (forall t | t in s.closes :: !s.closes[t].CloseDone? ==> s.sh.closeTask == Some(t))
    && (s.sh.closeTask.Some? ==> s.sh.closeTask.value in s.closes && CloseFits(s, s.closes[s.sh.closeTask.value]))
    && ((s.sh.phase.Draining? || s.sh.phase.Closing?) ==> s.sh.closeTask.Some?)
  }

  ghost function Held(s: State): set<nat> {
    if s.sh.client.Some? then {s.sh.client.value} else {}
  }

  ghost function BeingStarted(s: State): set<nat> {
    if s.sh.startTask.Some? && s.sh.startTask.value in s.starts
       && s.starts[s.sh.startTask.value].Created? && s.starts[s.sh.startTask.value].made.Some?
    then {s.starts[s.sh.startTask.value].made.value} else {}
  }

  ghost function BeingClosed(s: State): set<nat> {
    if s.sh.closeTask.Some? && s.sh.closeTask.value in s.closes
       && s.closes[s.sh.closeTask.value].Disposing? && s.closes[s.sh.closeTask.value].client.Some?
    then {s.closes[s.sh.closeTask.value].client.value} else {}
  }

  /** Every client ever created is closed, held, on its way to being published, or being closed. */
  ghost predicate Accounted(created: set<nat>, disposed: set<nat>, held: set<nat>, starting: set<nat>, closing: set<nat>) {
    created == disposed + held + starting + closing && disposed !! held !! starting !! closing
  }

  ghost predicate ClientsOk(s: State) {
    && (s.sh.client.Some? <==> s.sh.phase.Open? || s.sh.phase.Draining?)
    && Accounted(s.created, s.disposed, Held(s), BeingStarted(s), BeingClosed(s))
  }

  ghost predicate CallsOk(s: State) {
    && s.sh.active == |s.calls|
    && (forall k | k in s.calls :: s.sh.client == Some(s.calls[k]))
    && (s.sh.closeTask.Some? && s.sh.closeTask.value in s.closes ==>
          var pc := s.closes[s.sh.closeTask.value];
          (pc.Waiting? ==> s.sh.active > 0) && (pc.Woken? ==> s.sh.active == 0))
  }

  ghost predicate InterestOk(s: State) {
    (s.sh.phase.Starting? || s.sh.phase.Open?) && s.sh.closeTask.None? ==>
      && s.sh.startGen.Some? && s.sh.startGen.value in s.sh.gens
      && s.sh.gens[s.sh.startGen.value].waiters + s.sh.gens[s.sh.startGen.value].owners >= 1
  }

  ghost predicate NamesOk(s: State) {
    && (forall t | t in s.starts :: t < s.next)
    && (forall t | t in s.closes :: t < s.next)
    && s.sh.gens.Keys == s.starts.Keys
  }

  ghost predicate CountsOk(gens: map<nat, Generation>, callers: map<nat, Caller>) {
    forall g | g in gens :: gens[g] == Generation(|Waiters(callers, g)|, |Owners(callers, g)|)
  }

  ghost predicate CallerFits(at: Caller, starts: map<nat, StartPc>, closes: map<nat, ClosePc>) {
    match at
    case WaitingForClose(t) => t in closes
    case AwaitingRollback(t) => t in closes
    case WaitingForStart(g, t) => g == t && g in starts
    case Finishing(g, t, claim, last, cancelled) =>
      g == t && g in starts && (if last then !claim && cancelled else starts[t] == StartDone(claim))
    case Finished(g, t, ok, _) => g == t && g in starts && starts[t] == StartDone(ok)
    case RollingBack(g, t, ok) => g == t && g in starts && starts[t] == StartDone(ok)
    case Owner(g) => g in starts && starts[g] == StartDone(true)
    case _ => true
  }

  ghost predicate CloserFits(at: Closer, closes: map<nat, ClosePc>) {
    match at
    case Settling(t, _) => t in closes
    case Clearing(t, ok, _) => t in closes && closes[t] == CloseDone(ok)
    case _ => true
  }

  ghost predicate CallersFit(callers: map<nat, Caller>, starts: map<nat, StartPc>, closes: map<nat, ClosePc>) {
    forall c | c in callers :: CallerFits(callers[c], starts, closes)
  }

  ghost predicate ClosersFit(closers: map<nat, Closer>, closes: map<nat, ClosePc>) {
    forall c | c in closers :: CloserFits(closers[c], closes)
  }

  /** Everything but the claim that an open transport without a close task is wanted by someone. */
  ghost predicate Core(s: State) {
    && StartsOk(s)
    && GenerationOk(s)
    && ClosesOk(s)
    && ClientsOk(s)
    && CallsOk(s)
    && NamesOk(s)
    && CountsOk(s.sh.gens, s.callers)
    && CallersFit(s.callers, s.starts, s.closes)
    && ClosersFit(s.closers, s.closes)
  }

  ghost predicate Inv(s: State) {
    Core(s) && InterestOk(s)
  }

  // ----- the parts of the invariant that range over callers -----

  ghost function One(b: bool): nat { if b then 1 else 0 }

  lemma SameButOne(s: set<nat>, t: set<nat>, c: nat)
    requires forall x | x != c :: x in s <==> x in t
    ensures |t| == |s| - One(c in s) + One(c in t)
  {
    assert s - {c} == t - {c};
    assert c in s ==> s == (s - {c}) + {c};
    assert c in t ==> t == (t - {c}) + {c};
    assert c !in s ==> s == s - {c};
    assert c !in t ==> t == t - {c};
  }

  lemma WaitersAfterMove(callers: map<nat, Caller>, c: nat, at: Caller, g: nat)
    ensures |Waiters(callers[c := at], g)| ==
            |Waiters(callers, g)| - One(c in callers && WaitsIn(callers[c], g)) + One(WaitsIn(at, g))
  {
    SameButOne(Waiters(callers, g), Waiters(callers[c := at], g), c);
  }

  lemma OwnersAfterMove(callers: map<nat, Caller>, c: nat, at: Caller, g: nat)
    ensures |Owners(callers[c := at], g)| ==
            |Owners(callers, g)| - One(c in callers && OwnsIn(callers[c], g)) + One(OwnsIn(at, g))
  {
    SameButOne(Owners(callers, g), Owners(callers[c := at], g), c);
  }

  /** How far moving a caller from `was` to `at` shifts the two counts of generation `g`. */
  ghost function Shifted(n: Generation, was: Option<Caller>, at: Caller, g: nat): Generation {
    Generation(n.waiters - One(was.Some? && WaitsIn(was.value, g)) + One(WaitsIn(at, g)),
               n.owners - One(was.Some? && OwnsIn(was.value, g)) + One(OwnsIn(at, g)))
  }

  ghost function At(callers: map<nat, Caller>, c: nat): Option<Caller> {
    if c in callers then Some(callers[c]) else None
  }

  ghost predicate CountsFollow(gens: map<nat, Generation>, after: map<nat, Generation>, was: Option<Caller>, at: Caller) {
    after.Keys == gens.Keys && forall g | g in gens :: after[g] == Shifted(gens[g], was, at, g)
  }

  lemma CountsKept(gens: map<nat, Generation>, callers: map<nat, Caller>, c: nat, at: Caller,
                   after: map<nat, Generation>)
    requires CountsOk(gens, callers)
    requires CountsFollow(gens, after, At(callers, c), at)
    ensures CountsOk(after, callers[c := at])
  {
    forall g | g in after
      ensures after[g] == Generation(|Waiters(callers[c := at], g)|, |Owners(callers[c := at], g)|)
    {
      WaitersAfterMove(callers, c, at, g);
      OwnersAfterMove(callers, c, at, g);
    }
  }

  /** Ended tasks keep their answers and no task disappears. */
  ghost predicate StartsGrow(a: map<nat, StartPc>, b: map<nat, StartPc>) {
    forall t | t in a :: t in b && (a[t].StartDone? ==> b[t] == a[t])
  }

  ghost predicate ClosesGrow(a: map<nat, ClosePc>, b: map<nat, ClosePc>) {
    forall t | t in a :: t in b && (a[t].CloseDone? ==> b[t] == a[t])
  }

  lemma FitsKept(callers: map<nat, Caller>, c: nat, at: Caller,
                 starts: map<nat, StartPc>, closes: map<nat, ClosePc>,
                 starts': map<nat, StartPc>, closes': map<nat, ClosePc>)
    requires CallersFit(callers, starts, closes)
    requires StartsGrow(starts, starts') && ClosesGrow(closes, closes')
    requires CallerFits(at, starts', closes')
    ensures CallersFit(callers, starts', closes')
    ensures CallersFit(callers[c := at], starts', closes')
  {
  }

  lemma CloserFitsKept(closers: map<nat, Closer>, c: nat, at: Closer,
                       closes: map<nat, ClosePc>, closes': map<nat, ClosePc>)
    requires ClosersFit(closers, closes) && ClosesGrow(closes, closes') && CloserFits(at, closes')
    ensures ClosersFit(closers, closes')
    ensures ClosersFit(closers[c := at], closes')
  {
  }

  // ----- the invariant is kept -----

  lemma InitialInv()
    ensures Inv(INITIAL)
  {
  }

  /** A caller moves, and the counts follow it. */
  lemma MoveKeepsCore(s: State, t: State, c: nat, at: Caller, gens: map<nat, Generation>)
    requires Core(s) && CallerFits(at, s.starts, s.closes)
    requires t == Moved(s.(sh := s.sh.(gens := gens)), c, at)
    requires CountsFollow(s.sh.gens, gens, At(s.callers, c), at)
    ensures Core(t)
  {
    CountsKept(s.sh.gens, s.callers, c, at, gens);
    FitsKept(s.callers, c, at, s.starts, s.closes, s.starts, s.closes);
    assert StartsOk(t) && GenerationOk(t) && ClosesOk(t);
    assert ClientsOk(t) && CallsOk(t) && NamesOk(t);
  }

  ghost function AfterIntent(s: State, start: Option<nat>): State {
    var (sh, _, spawn) := EnsureCloseIntent(s.sh, start, s.next);
    Spawned(s.(sh := sh), spawn)
  }

  /** Beginning a close touches the tasks and nobody's counts. */
  lemma IntentKeepsTasks(s: State, start: Option<nat>)
    requires StartsOk(s) && GenerationOk(s) && ClosesOk(s) && NamesOk(s)
    requires s.sh.phase.Starting? ==> start == s.sh.startTask
    ensures var t := AfterIntent(s, start);
            && StartsOk(t) && GenerationOk(t) && ClosesOk(t) && NamesOk(t) && InterestOk(t)
            && ClosesGrow(s.closes, t.closes)
            && (EnsureCloseIntent(s.sh, start, s.next).1.Some? ==> EnsureCloseIntent(s.sh, start, s.next).1.value in t.closes)
            && ((s.sh.phase.Starting? || s.sh.phase.Open?) ==> EnsureCloseIntent(s.sh, start, s.next).1.Some?)
  {
    assert s.next !in s.closes;
  }

  /** Beginning a close passes no client from hand to hand. */
  ghost predicate SameHands(s: State, t: State) {
    && t.created == s.created && t.disposed == s.disposed && t.sh.client == s.sh.client && t.starts == s.starts
    && t.sh.startTask == s.sh.startTask && t.calls == s.calls && t.sh.active == s.sh.active
    && (t == s || (s.sh.closeTask.None? && t.sh.closeTask == Some(s.next) && s.next !in s.closes
                   && (s.sh.phase.Open? || s.sh.phase.Starting?) && t.sh.phase == (if s.sh.phase.Open? then Draining else Starting)
                   && s.next in t.closes && (t.closes[s.next].AwaitingStart? || t.closes[s.next].Checking?)))
  }

  lemma IntentKeepsHands(s: State, start: Option<nat>)
    requires NamesOk(s)
    ensures SameHands(s, AfterIntent(s, start))
  {
    if EnsureCloseIntent(s.sh, start, s.next).2.NoSpawn? {
      assert AfterIntent(s, start) == s;
    }
  }

  lemma HandsKeepClients(s: State, t: State)
    requires SameHands(s, t) && ClientsOk(s)
    ensures ClientsOk(t)
  {
    hide Accounted;
    if t != s {
      assert BeingClosed(s) == {} == BeingClosed(t);
      assert Held(s) == Held(t) && BeingStarted(s) == BeingStarted(t);
    }
  }

  lemma IntentKeepsClients(s: State, start: Option<nat>)
    requires ClientsOk(s) && CallsOk(s) && NamesOk(s)
    ensures ClientsOk(AfterIntent(s, start)) && CallsOk(AfterIntent(s, start))
  {
    IntentKeepsHands(s, start);
    hide AfterIntent, NamesOk, ClientsOk;
    HandsKeepClients(s, AfterIntent(s, start));
  }

  lemma IntentKeepsCore(s: State, start: Option<nat>)
    requires Core(s) && (s.sh.phase.Starting? ==> start == s.sh.startTask)
    ensures var t := AfterIntent(s, start);
            && Core(t) && InterestOk(t)
            && (EnsureCloseIntent(s.sh, start, s.next).1.Some? ==> EnsureCloseIntent(s.sh, start, s.next).1.value in t.closes)
            && ((s.sh.phase.Starting? || s.sh.phase.Open?) ==> EnsureCloseIntent(s.sh, start, s.next).1.Some?)
  {
    hide StartsOk, GenerationOk, ClosesOk, NamesOk, ClientsOk, CallsOk, CountsOk, CallersFit, ClosersFit, InterestOk;
    hide ClosesGrow;
    var t := AfterIntent(s, start);
    IntentKeepsTasks(s, start);
    IntentKeepsClients(s, start);
    SameStarts(s.starts);
    FitsKept(s.callers, 0, AtEntry, s.starts, s.closes, t.starts, t.closes);
    CloserFitsKept(s.closers, 0, CloserAtEntry, s.closes, t.closes);
  }

  lemma SameStarts(starts: map<nat, StartPc>)
    ensures StartsGrow(starts, starts)
  {
  }

  lemma NobodyInFuture(s: State, g: nat)
    requires CallersFit(s.callers, s.starts, s.closes) && NamesOk(s) && s.next <= g
    ensures Waiters(s.callers, g) == {} && Owners(s.callers, g) == {}
  {
    assert g !in s.starts;
    assert forall d | d in s.callers :: CallerFits(s.callers[d], s.starts, s.closes);
  }

  lemma NewGenerationCounts(s: State, c: nat)
    requires Core(s) && c in s.callers && s.callers[c].AtEntry?
    ensures CountsOk(s.sh.gens[s.next := Generation(1, 0)], s.callers[c := WaitingForStart(s.next, s.next)])
  {
    hide StartsOk, GenerationOk, ClosesOk, NamesOk, ClientsOk, CallsOk, CallersFit, ClosersFit, Waiters, Owners;
    var at := WaitingForStart(s.next, s.next);
    NobodyInFuture(s, s.next);
    forall h
      ensures |Waiters(s.callers[c := at], h)| == |Waiters(s.callers, h)| + One(h == s.next)
      ensures |Owners(s.callers[c := at], h)| == |Owners(s.callers, h)|
    {
      WaitersAfterMove(s.callers, c, at, h);
      OwnersAfterMove(s.callers, c, at, h);
    }
  }

  /** What the locked part of `start` may do: begin a start, or only bump the current generation. */
  lemma EntryShape(sh: Shared, tid: nat)
    ensures var (after, entry) := EnterStart(sh, tid);
            if entry.EntrySpawns? then
              && sh.closeTask.None? && (sh.phase.New? || sh.phase.Closed?)
              && entry == EntrySpawns(tid, tid)
              && after == sh.(phase := Starting, startTask := Some(tid), startGen := Some(tid),
                              gens := sh.gens[tid := Generation(1, 0)])
            else
              && after == sh.(gens := after.gens)
              && (entry.EntryFailed? || entry.EntryWaitsForClose? ==> after == sh || (sh.phase.Starting? && sh.startTask.None?))
              && (entry.EntryWaitsForClose? ==> sh.closeTask == Some(entry.task))
              && (entry.EntryOwns? ==> sh.phase.Open? && sh.startGen == Some(entry.gen)
                                       && after.gens == Counted(sh.gens, entry.gen, 0, 1))
              && (entry.EntryWaitsForStart? ==> sh.phase.Starting? && sh.startGen == Some(entry.gen)
                                                && sh.startTask == Some(entry.task)
                                                && after.gens == Counted(sh.gens, entry.gen, 1, 0))
  {
  }

  lemma NewStartKeepsTasks(s: State, c: nat)
    requires StartsOk(s) && GenerationOk(s) && ClosesOk(s) && ClientsOk(s) && CallsOk(s) && NamesOk(s)
    requires c in s.callers && EnterStart(s.sh, s.next).1.EntrySpawns?
    ensures var t := EntryStep(s, c);
            && StartsOk(t) && GenerationOk(t) && ClosesOk(t) && NamesOk(t) && InterestOk(t)
            && ClientsOk(t) && CallsOk(t) && StartsGrow(s.starts, t.starts)
  {
    EntryShape(s.sh, s.next);
    hide EnterStart;
    var t := EntryStep(s, c);
    assert s.next !in s.starts;
    assert StartsOk(t) && GenerationOk(t) && ClosesOk(t) && NamesOk(t);
    assert BeingStarted(s) == {} == BeingStarted(t);
    assert Held(s) == Held(t) && BeingClosed(s) == BeingClosed(t);
  }

  lemma NewStartKeepsInv(s: State, c: nat)
    requires Inv(s) && c in s.callers && s.callers[c].AtEntry?
    requires EnterStart(s.sh, s.next).1.EntrySpawns?
    ensures Inv(EntryStep(s, c))
  {
    hide StartsOk, GenerationOk, ClosesOk, NamesOk, ClientsOk, CallsOk, CountsOk, CallersFit, ClosersFit, InterestOk;
    hide StartsGrow, ClosesGrow, EnterStart;
    EntryShape(s.sh, s.next);
    NewStartKeepsTasks(s, c);
    NewGenerationCounts(s, c);
    SameCloses(s.closes);
    var t := EntryStep(s, c);
    FitsKept(s.callers, c, t.callers[c], s.starts, s.closes, t.starts, t.closes);
  }

  lemma SameCloses(closes: map<nat, ClosePc>)
    ensures ClosesGrow(closes, closes)
  {
  }

  lemma JoinMoves(s: State, c: nat)
    requires c in s.callers && s.callers[c].AtEntry? && !EnterStart(s.sh, s.next).1.EntrySpawns?
    ensures var t := EntryStep(s, c);
            t == Moved(s.(sh := s.sh.(gens := t.sh.gens)), c, t.callers[c])
  {
    EntryShape(s.sh, s.next);
    hide EnterStart, Counted;
  }

  lemma CountsUntouched(gens: map<nat, Generation>, at: Caller)
    requires forall g | g in gens :: !WaitsIn(at, g) && !OwnsIn(at, g)
    ensures CountsFollow(gens, gens, Some(AtEntry), at)
  {
  }

  lemma CountsJoined(gens: map<nat, Generation>, gen: nat, at: Caller)
    requires forall g | g in gens :: (WaitsIn(at, g) || OwnsIn(at, g)) ==> g == gen
    ensures CountsFollow(gens, Counted(gens, gen, One(WaitsIn(at, gen)), One(OwnsIn(at, gen))), Some(AtEntry), at)
  {
  }

  lemma JoinCounts(s: State, c: nat)
    requires s.sh.phase.Starting? ==> s.sh.startTask.Some?
    requires c in s.callers && s.callers[c].AtEntry? && !EnterStart(s.sh, s.next).1.EntrySpawns?
    ensures var t := EntryStep(s, c);
            CountsFollow(s.sh.gens, t.sh.gens, At(s.callers, c), t.callers[c])
  {
    EntryShape(s.sh, s.next);
    hide EnterStart, CountsFollow, Counted;
    var t := EntryStep(s, c);
    match EnterStart(s.sh, s.next).1
    case EntryFailed => CountsUntouched(s.sh.gens, t.callers[c]);
    case EntryWaitsForClose(_) => CountsUntouched(s.sh.gens, t.callers[c]);
    case EntryOwns(g) => CountsJoined(s.sh.gens, g, t.callers[c]);
    case EntryWaitsForStart(g, _) => CountsJoined(s.sh.gens, g, t.callers[c]);
  }

  lemma JoinFits(s: State, c: nat)
    requires StartsOk(s) && GenerationOk(s) && NamesOk(s) && ClosesOk(s)
    requires c in s.callers && s.callers[c].AtEntry? && !EnterStart(s.sh, s.next).1.EntrySpawns?
    ensures var t := EntryStep(s, c);
            && t == Moved(s.(sh := s.sh.(gens := t.sh.gens)), c, t.callers[c])
            && CountsFollow(s.sh.gens, t.sh.gens, At(s.callers, c), t.callers[c])
            && CallerFits(t.callers[c], s.starts, s.closes)
  {
    EntryShape(s.sh, s.next);
    JoinMoves(s, c);
    JoinCounts(s, c);
    hide EnterStart, Counted, CountsFollow;
  }

  lemma JoinKeepsInterest(s: State, c: nat)
    requires StartsOk(s) && InterestOk(s)
    requires !EnterStart(s.sh, s.next).1.EntrySpawns?
    ensures InterestOk(EntryStep(s, c))
  {
    EntryShape(s.sh, s.next);
    hide EnterStart;
  }

  lemma JoinKeepsInv(s: State, c: nat)
    requires Inv(s) && c in s.callers && s.callers[c].AtEntry?
    requires !EnterStart(s.sh, s.next).1.EntrySpawns?
    ensures Inv(EntryStep(s, c))
  {
    hide StartsOk, GenerationOk, ClosesOk, NamesOk, ClientsOk, CallsOk, CountsOk, CallersFit, ClosersFit, InterestOk;
    hide CountsFollow, CallerFits, EntryStep;
    JoinFits(s, c);
    JoinKeepsInterest(s, c);
    var t := EntryStep(s, c);
    MoveKeepsCore(s, t, c, t.callers[c], t.sh.gens);
  }

  lemma EntryKeepsInv(s: State, c: nat)
    requires Inv(s) && c in s.callers && s.callers[c].AtEntry?
    ensures Inv(EntryStep(s, c))
  {
    hide Inv, EntryStep;
    if EnterStart(s.sh, s.next).1.EntrySpawns? {
      NewStartKeepsInv(s, c);
    } else {
      JoinKeepsInv(s, c);
    }
  }

  /** The generation a caller finishes is the one the start task belongs to. */
  lemma CurrentStart(s: State, g: nat)
    requires Core(s) && s.sh.startGen == Some(g)
    ensures s.sh.phase.Starting? ==> s.sh.startTask == Some(g)
    ensures g in s.starts && s.starts[g] != StartDone(false)
  {
  }

  /** The last step of a caller that withdrew: begin a close if nobody else is interested. */
  ghost function Left(s: State, sh: Shared, c: nat, g: nat): State {
    var (after, rollback, spawn) := EnsureCloseIntent(sh, Some(g), s.next);
    Moved(Spawned(s.(sh := after), spawn), c, AfterRollback(rollback))
  }

  lemma SpawnedMoved(s: State, spawn: Spawn, c: nat, at: Caller)
    ensures Spawned(Moved(s, c, at), spawn) == Moved(Spawned(s, spawn), c, at)
  {
  }

  lemma MovedTwice(s: State, c: nat, was: Caller, at: Caller)
    ensures Moved(Moved(s, c, was), c, at) == Moved(s, c, at)
  {
    assert s.callers[c := was][c := at] == s.callers[c := at];
  }

  lemma MovedShared(s: State, sh: Shared, after: Shared, c: nat, at: Caller)
    ensures Moved(s.(sh := sh), c, at).sh == sh && Moved(s.(sh := sh), c, at).next == s.next
    ensures Moved(s.(sh := sh), c, at).(sh := after) == Moved(s.(sh := after), c, at)
  {
  }

  lemma LeftTwice(s: State, sh: Shared, c: nat, g: nat)
    ensures var mid := Moved(s.(sh := sh), c, StartCancelled);
            Left(s, sh, c, g) == Moved(AfterIntent(mid, Some(g)), c, AfterRollback(EnsureCloseIntent(sh, Some(g), s.next).1))
  {
    hide EnsureCloseIntent, Spawned, Moved, AfterRollback;
    var (after, rollback, spawn) := EnsureCloseIntent(sh, Some(g), s.next);
    MovedShared(s, sh, after, c, StartCancelled);
    SpawnedMoved(s.(sh := after), spawn, c, StartCancelled);
    MovedTwice(Spawned(s.(sh := after), spawn), c, StartCancelled, AfterRollback(rollback));
  }

  lemma LeaveKeepsInv(s: State, sh: Shared, c: nat, g: nat)
    requires Core(Moved(s.(sh := sh), c, StartCancelled))
    requires NoInterest(sh, g)
    ensures Inv(Left(s, sh, c, g))
  {
    hide StartsOk, GenerationOk, ClosesOk, NamesOk, ClientsOk, CallsOk, CountsOk, CallersFit, ClosersFit, InterestOk;
    hide EnsureCloseIntent, Left, Shifted, Spawned;
    var mid := Moved(s.(sh := sh), c, StartCancelled);
    CurrentStart(mid, g);
    LeftTwice(s, sh, c, g);
    IntentKeepsCore(mid, Some(g));
    var at := AfterRollback(EnsureCloseIntent(sh, Some(g), s.next).1);
    var u := AfterIntent(mid, Some(g));
    SpawnKeepsCallers(mid, Some(g));
    NothingCounted(at);
    QuietMoveKeepsInv(u, c, at);
  }

  lemma SpawnKeepsCallers(s: State, start: Option<nat>)
    ensures AfterIntent(s, start).callers == s.callers
  {
  }

  lemma NothingCounted(at: Caller)
    requires at.AwaitingRollback? || at.StartCancelled?
    ensures forall g :: Shifted(Generation(0, 0), Some(StartCancelled), at, g) == Generation(0, 0)
  {
  }

  lemma FinishFits(s: State, c: nat, at: Caller, rest: Caller)
    requires c in s.callers && s.callers[c] == at && at.Finishing? && CallerFits(at, s.starts, s.closes) && NamesOk(s)
    requires rest == if at.rollbackIfLast then StartCancelled else Finished(at.gen, at.task, at.claim, at.cancelled)
    ensures CountsFollow(s.sh.gens, Counted(s.sh.gens, at.gen, -1, if at.claim then 1 else 0), At(s.callers, c), rest)
    ensures CallerFits(rest, s.starts, s.closes)
  {
  }

  /** A finished wait that begins no close leaves somebody interested. */
  lemma FinishKeepsInterest(s: State, t: State, at: Caller)
    requires StartsOk(s) && GenerationOk(s) && NamesOk(s) && InterestOk(s)
    requires at.Finishing? && CallerFits(at, s.starts, s.closes)
    requires t.sh == Bump(s.sh, at.gen, -1, if at.claim then 1 else 0)
    requires at.rollbackIfLast ==> !NoInterest(t.sh, at.gen)
    requires t.sh.startGen.Some? && t.sh.startGen.value in t.sh.gens ==>
               t.sh.gens[t.sh.startGen.value].waiters >= 0 && t.sh.gens[t.sh.startGen.value].owners >= 0
    ensures InterestOk(t)
  {
  }

  lemma CountsAreNatural(s: State)
    requires Core(s)
    ensures s.sh.startGen.Some? && s.sh.startGen.value in s.sh.gens ==>
              s.sh.gens[s.sh.startGen.value].waiters >= 0 && s.sh.gens[s.sh.startGen.value].owners >= 0
  {
  }

  lemma FinishKeepsInv(s: State, c: nat)
    requires Inv(s) && c in s.callers && s.callers[c].Finishing?
    ensures Inv(FinishStep(s, c, s.callers[c]))
  {
    hide StartsOk, GenerationOk, ClosesOk, NamesOk, ClientsOk, CallsOk, CountsOk, CallersFit, ClosersFit, InterestOk;
    hide CountsFollow, CallerFits, EnsureCloseIntent;
    var at := s.callers[c];
    FitsOf(s, c);
    var sh := Bump(s.sh, at.gen, -1, if at.claim then 1 else 0);
    var rest := if at.rollbackIfLast then StartCancelled else Finished(at.gen, at.task, at.claim, at.cancelled);
    var mid := Moved(s.(sh := sh), c, rest);
    FinishFits(s, c, at, rest);
    MoveKeepsCore(s, mid, c, rest, sh.gens);
    GenerationIsTask(at, s.starts, s.closes);
    var t := FinishStep(s, c, at);
    if at.rollbackIfLast && NoInterest(sh, at.gen) {
      assert t == Left(s, sh, c, at.gen);
      LeaveKeepsInv(s, sh, c, at.gen);
    } else {
      assert t == mid;
      CountsAreNatural(mid);
      FinishKeepsInterest(s, mid, at);
    }
  }

  lemma NeverUnfit(starts: map<nat, StartPc>, closes: map<nat, ClosePc>)
    ensures CallerFits(StartCancelled, starts, closes)
  {
  }

  lemma FitsOf(s: State, c: nat)
    requires Inv(s) && c in s.callers
    ensures CallerFits(s.callers[c], s.starts, s.closes)
  {
  }

  lemma GenerationIsTask(at: Caller, starts: map<nat, StartPc>, closes: map<nat, ClosePc>)
    requires CallerFits(at, starts, closes) && (at.Finishing? || at.RollingBack?)
    ensures at.gen == at.task
  {
  }

  lemma RollbackFits(s: State, c: nat, at: Caller)
    requires c in s.callers && s.callers[c] == at && at.RollingBack? && CallerFits(at, s.starts, s.closes) && NamesOk(s)
    ensures CountsFollow(s.sh.gens, if at.relinquish then Counted(s.sh.gens, at.gen, 0, -1) else s.sh.gens,
                         At(s.callers, c), StartCancelled)
  {
  }

  lemma RollbackKeepsInterest(s: State, t: State, at: Caller)
    requires StartsOk(s) && GenerationOk(s) && NamesOk(s) && InterestOk(s)
    requires at.RollingBack? && CallerFits(at, s.starts, s.closes)
    requires t.sh == if at.relinquish then Bump(s.sh, at.gen, 0, -1) else s.sh
    requires !NoInterest(t.sh, at.gen)
    requires t.sh.startGen.Some? && t.sh.startGen.value in t.sh.gens ==>
               t.sh.gens[t.sh.startGen.value].waiters >= 0 && t.sh.gens[t.sh.startGen.value].owners >= 0
    ensures InterestOk(t)
  {
  }

  lemma RollbackKeepsInv(s: State, c: nat)
    requires Inv(s) && c in s.callers && s.callers[c].RollingBack?
    ensures Inv(RollbackStep(s, c, s.callers[c]))
  {
    hide StartsOk, GenerationOk, ClosesOk, NamesOk, ClientsOk, CallsOk, CountsOk, CallersFit, ClosersFit, InterestOk;
    hide CountsFollow, CallerFits, EnsureCloseIntent;
    var at := s.callers[c];
    FitsOf(s, c);
    var sh := if at.relinquish then Bump(s.sh, at.gen, 0, -1) else s.sh;
    var mid := Moved(s.(sh := sh), c, StartCancelled);
    RollbackFits(s, c, at);
    assert CallerFits(StartCancelled, s.starts, s.closes) by {
      NeverUnfit(s.starts, s.closes);
    }
    MoveKeepsCore(s, mid, c, StartCancelled, sh.gens);
    GenerationIsTask(at, s.starts, s.closes);
    var t := RollbackStep(s, c, at);
    if NoInterest(sh, at.gen) {
      assert t == Left(s, sh, c, at.gen);
      LeaveKeepsInv(s, sh, c, at.gen);
    } else {
      assert t == mid;
      CountsAreNatural(mid);
      RollbackKeepsInterest(s, mid, at);
    }
  }

  /** Moves that leave the shared fields alone: waking up, and being cancelled. */
  lemma QuietMoveKeepsInv(s: State, c: nat, at: Caller)
    requires Inv(s) && CallerFits(at, s.starts, s.closes)
    requires forall g :: Shifted(Generation(0, 0), At(s.callers, c), at, g) == Generation(0, 0)
    ensures Inv(Moved(s, c, at))
  {
    assert CountsFollow(s.sh.gens, s.sh.gens, At(s.callers, c), at) by {
      forall g | g in s.sh.gens
        ensures s.sh.gens[g] == Shifted(s.sh.gens[g], At(s.callers, c), at, g)
      {
        assert Shifted(Generation(0, 0), At(s.callers, c), at, g) == Generation(0, 0);
      }
    }
    hide StartsOk, GenerationOk, ClosesOk, NamesOk, ClientsOk, CallsOk, CountsOk, CallersFit, ClosersFit, CountsFollow;
    MoveKeepsCore(s, Moved(s, c, at), c, at, s.sh.gens);
  }

  lemma ResumeKeepsInv(s: State, c: nat)
    requires Inv(s) && c in s.callers && CallerResumed(s, s.callers[c]).Some?
    ensures Inv(Moved(s, c, CallerResumed(s, s.callers[c]).value))
  {
    hide Inv;
    FitsOf(s, c);
    QuietMoveKeepsInv(s, c, CallerResumed(s, s.callers[c]).value);
  }

  lemma CancelKeepsInv(s: State, c: nat)
    requires Inv(s) && c in s.callers && CallerCancelled(s.callers[c]).Some?
    ensures Inv(Moved(s, c, CallerCancelled(s.callers[c]).value))
  {
    hide Inv;
    FitsOf(s, c);
    QuietMoveKeepsInv(s, c, CallerCancelled(s.callers[c]).value);
  }

  lemma RegionKeepsInv(s: State, c: nat)
    requires Inv(s) && CallerRegion(s, c).Some?
    ensures Inv(CallerRegion(s, c).value)
  {
    hide Inv;
    match s.callers[c]
    case AtEntry => EntryKeepsInv(s, c);
    case Finishing(_, _, _, _, _) => FinishKeepsInv(s, c);
    case RollingBack(_, _, _) => RollbackKeepsInv(s, c);
  }

  // ----- callers of aclose -----

  lemma CloserMoveKeepsInv(s: State, c: nat, at: Closer)
    requires Inv(s) && CloserFits(at, s.closes)
    ensures Inv(CloserMoved(s, c, at))
  {
    hide CountsOk, CallersFit, ClosersFit, CloserFits, ClosesGrow, Accounted;
    var t := CloserMoved(s, c, at);
    SameCloses(s.closes);
    CloserFitsKept(s.closers, c, at, s.closes, s.closes);
    assert StartsOk(t) && GenerationOk(t) && ClosesOk(t) && ClientsOk(t) && CallsOk(t);
  }

  lemma CloseNewKeepsInv(s: State)
    requires Inv(s) && s.sh.phase.New?
    ensures Inv(s.(sh := s.sh.(phase := Closed, startGen := None)))
  {
    hide CountsOk, CallersFit, ClosersFit, Accounted;
    var t := s.(sh := s.sh.(phase := Closed, startGen := None));
    assert StartsOk(t) && GenerationOk(t) && ClosesOk(t);
    assert ClientsOk(t) && CallsOk(t);
  }

  /** A finished close task is no longer the current one, so clearing it changes nothing. */
  lemma ClearingIsIdle(s: State, c: nat)
    requires Inv(s) && c in s.closers && s.closers[c].Clearing?
    ensures ForgetClose(s.sh, s.closers[c].task) == s.sh
  {
    assert CloserFits(s.closers[c], s.closes);
  }

  lemma CloseEntryShape(sh: Shared, tid: nat)
    ensures var (after, entry, spawn) := EnterClose(sh, tid);
            var start := if sh.phase.Starting? then sh.startTask else None;
            if sh.phase.New? then after == sh.(phase := Closed, startGen := None) && entry.CloseReturns? && spawn.NoSpawn?
            else if sh.closeTask.None? && (sh.phase.Starting? || sh.phase.Open?) then
              && (after, spawn) == (EnsureCloseIntent(sh, start, tid).0, EnsureCloseIntent(sh, start, tid).2)
              && entry == (if EnsureCloseIntent(sh, start, tid).1.Some?
                           then CloseSettles(EnsureCloseIntent(sh, start, tid).1.value) else CloseFails)
            else
              && after == sh && spawn.NoSpawn?
              && (entry.CloseSettles? ==> sh.closeTask == Some(entry.task))
  {
  }

  lemma CurrentCloseExists(s: State)
    requires Inv(s)
    ensures s.sh.closeTask.Some? ==> s.sh.closeTask.value in s.closes
  {
  }

  lemma CloserEntryKeepsInv(s: State, c: nat)
    requires Inv(s) && c in s.closers && s.closers[c].CloserAtEntry?
    ensures Inv(CloserRegion(s, c).value)
  {
    hide StartsOk, GenerationOk, ClosesOk, NamesOk, ClientsOk, CallsOk, CountsOk, CallersFit, ClosersFit, InterestOk;
    hide EnterClose, EnsureCloseIntent;
    CloseEntryShape(s.sh, s.next);
    CurrentCloseExists(s);
    var (sh, entry, spawn) := EnterClose(s.sh, s.next);
    var mid := Spawned(s.(sh := sh), spawn);
    if s.sh.phase.New? {
      CloseNewKeepsInv(s);
    } else if s.sh.closeTask.None? && (s.sh.phase.Starting? || s.sh.phase.Open?) {
      IntentKeepsCore(s, if s.sh.phase.Starting? then s.sh.startTask else None);
    }
    assert Inv(mid);
    assert mid.closers == s.closers;
    CloserMoveKeepsInv(mid, c, CloserRegion(s, c).value.closers[c]);
  }

  lemma CloserRegionKeepsInv(s: State, c: nat)
    requires Inv(s) && CloserRegion(s, c).Some?
    ensures Inv(CloserRegion(s, c).value)
  {
    hide Inv, CloserFits;
    if s.closers[c].CloserAtEntry? {
      CloserEntryKeepsInv(s, c);
    } else {
      ClearingIsIdle(s, c);
      hide ForgetClose;
      var at := CloserRegion(s, c).value.closers[c];
      assert CloserFits(at, s.closes) by {
        EndedCloserFits(at, s.closes);
      }
      CloserMoveKeepsInv(s, c, at);
    }
  }

  lemma EndedCloserFits(at: Closer, closes: map<nat, ClosePc>)
    requires at.CloserReturned? || at.CloserFailed? || at.CloserCancelled? || at.CloserAtEntry?
    ensures CloserFits(at, closes)
  {
  }

  lemma CloserWakesKeepsInv(s: State, c: nat)
    requires Inv(s)
    ensures c in s.closers && CloserResumed(s, s.closers[c]).Some? ==>
              Inv(CloserMoved(s, c, CloserResumed(s, s.closers[c]).value))
    ensures c in s.closers && CloserInterrupted(s.closers[c]).Some? ==>
              Inv(CloserMoved(s, c, CloserInterrupted(s.closers[c]).value))
    ensures c !in s.closers ==> Inv(CloserMoved(s, c, CloserAtEntry))
  {
    hide StartsOk, GenerationOk, ClosesOk, NamesOk, ClientsOk, CallsOk, CountsOk, CallersFit, InterestOk;
    if c !in s.closers {
      CloserMoveKeepsInv(s, c, CloserAtEntry);
    } else {
      assert CloserFits(s.closers[c], s.closes);
      if CloserResumed(s, s.closers[c]).Some? {
        CloserMoveKeepsInv(s, c, CloserResumed(s, s.closers[c]).value);
      }
      if CloserInterrupted(s.closers[c]).Some? {
        CloserMoveKeepsInv(s, c, CloserInterrupted(s.closers[c]).value);
      }
    }
  }

  // ----- the start task -----

  /** The start task either makes its client or publishes what it made. */
  lemma StartStepShape(s: State, t: nat, made: Option<nat>)
    requires StartsOk(s) && StartTask(s, t, made).Some?
    ensures s.sh.startTask == Some(t) == s.sh.startGen && s.sh.phase.Starting? && t in s.starts
    ensures var u := StartTask(s, t, made).value;
            && u.closes == s.closes && u.callers == s.callers && u.closers == s.closers && u.sh.gens == s.sh.gens && u.next == s.next
            && u.sh.closeTask == s.sh.closeTask
            && if s.starts[t].Creating? then u.sh == s.sh && u.starts == s.starts[t := Created(made)]
               else
                 && s.starts[t].Created?
                 && var ok := s.starts[t].made.Some?;
                    && u.starts == s.starts[t := StartDone(ok)]
                    && u.sh.startTask.None? && u.sh.phase == (if ok then Open else Broken)
                    && u.sh.startGen == (if ok then Some(t) else None)
  {
  }

  lemma StartStepClosing(s: State, t: nat, made: Option<nat>)
    requires StartsOk(s) && ClosesOk(s) && StartTask(s, t, made).Some?
    ensures ClosesOk(StartTask(s, t, made).value)
  {
    StartStepShape(s, t, made);
    hide StartTask, StartsOk, CloseFits;
    var u := StartTask(s, t, made).value;
    if s.sh.closeTask.Some? {
      StartStepCloseFits(s, t, made, s.closes[s.sh.closeTask.value]);
    }
  }

  lemma StartStepCloseFits(s: State, t: nat, made: Option<nat>, pc: ClosePc)
    requires StartsOk(s) && StartTask(s, t, made).Some? && CloseFits(s, pc)
    ensures CloseFits(StartTask(s, t, made).value, pc)
  {
    StartStepShape(s, t, made);
    hide StartTask, StartsOk;
  }

  lemma StartStepStarts(s: State, t: nat, made: Option<nat>)
    requires StartsOk(s) && StartTask(s, t, made).Some?
    ensures StartsOk(StartTask(s, t, made).value)
  {
    StartStepShape(s, t, made);
    hide StartTask;
  }

  lemma StartStepGeneration(s: State, t: nat, made: Option<nat>)
    requires StartsOk(s) && GenerationOk(s) && StartTask(s, t, made).Some?
    ensures GenerationOk(StartTask(s, t, made).value)
  {
    StartStepShape(s, t, made);
    hide StartTask, StartsOk;
  }

  lemma StartStepTasks(s: State, t: nat, made: Option<nat>)
    requires StartsOk(s) && GenerationOk(s) && NamesOk(s) && InterestOk(s) && StartTask(s, t, made).Some?
    ensures var u := StartTask(s, t, made).value;
            && StartsOk(u) && GenerationOk(u) && NamesOk(u) && InterestOk(u)
            && StartsGrow(s.starts, u.starts)
            && u.closes == s.closes && u.callers == s.callers && u.closers == s.closers && u.sh.gens == s.sh.gens
  {
    StartStepShape(s, t, made);
    StartStepStarts(s, t, made);
    StartStepGeneration(s, t, made);
    hide StartTask, StartsOk, GenerationOk;
  }

  /** The four ways a client passes from hand to hand. */
  lemma ClientMoves(created: set<nat>, disposed: set<nat>, x: set<nat>)
    ensures Accounted(created, disposed, {}, {}, {}) && x !! created ==> Accounted(created + x, disposed, {}, x, {})
    ensures Accounted(created, disposed, {}, x, {}) ==> Accounted(created, disposed, x, {}, {})
    ensures Accounted(created, disposed, x, {}, {}) ==> Accounted(created, disposed, {}, {}, x)
    ensures Accounted(created, disposed, {}, {}, x) ==> Accounted(created, disposed + x, {}, {}, {})
  {
  }

  lemma CreateMoves(s: State, t: nat, made: Option<nat>)
    requires StartsOk(s) && ClosesOk(s) && ClientsOk(s) && StartTask(s, t, made).Some? && s.starts[t].Creating?
    ensures var u := StartTask(s, t, made).value;
            && u.sh == s.sh && u.closes == s.closes && u.calls == s.calls && u.disposed == s.disposed
            && Held(s) == {} && BeingStarted(s) == {} && BeingClosed(s) == {}
            && BeingStarted(u) == (if made.Some? then {made.value} else {})
            && u.created == s.created + BeingStarted(u) && BeingStarted(u) !! s.created
  {
  }

  lemma CreateKeepsClients(s: State, t: nat, made: Option<nat>)
    requires StartsOk(s) && ClosesOk(s) && ClientsOk(s) && CallsOk(s)
    requires StartTask(s, t, made).Some? && s.starts[t].Creating?
    ensures ClientsOk(StartTask(s, t, made).value) && CallsOk(StartTask(s, t, made).value)
  {
    hide Accounted, StartTask, StartsOk, ClosesOk, BeingStarted;
    CreateMoves(s, t, made);
    ClientMoves(s.created, s.disposed, BeingStarted(StartTask(s, t, made).value));
  }

  lemma PublishMoves(s: State, t: nat, made: Option<nat>)
    requires StartsOk(s) && ClosesOk(s) && ClientsOk(s) && StartTask(s, t, made).Some? && s.starts[t].Created?
    ensures var u := StartTask(s, t, made).value;
            && s.sh.client.None? && u.closes == s.closes && u.calls == s.calls && u.sh.active == s.sh.active
            && u.sh.closeTask == s.sh.closeTask && u.created == s.created && u.disposed == s.disposed
            && Held(s) == {} && BeingClosed(s) == {} == BeingClosed(u)
            && BeingStarted(u) == {} && BeingStarted(s) == Held(u)
            && (u.sh.client.Some? <==> u.sh.phase.Open? || u.sh.phase.Draining?)
  {
  }

  lemma PublishKeepsClients(s: State, t: nat, made: Option<nat>)
    requires StartsOk(s) && ClosesOk(s) && ClientsOk(s) && CallsOk(s)
    requires StartTask(s, t, made).Some? && s.starts[t].Created?
    ensures ClientsOk(StartTask(s, t, made).value) && CallsOk(StartTask(s, t, made).value)
  {
    hide Accounted, StartTask, StartsOk, ClosesOk, BeingStarted, BeingClosed, Held;
    PublishMoves(s, t, made);
    ClientMoves(s.created, s.disposed, Held(StartTask(s, t, made).value));
  }

  lemma PublishOrCreateKeepsClients(s: State, t: nat, made: Option<nat>)
    requires StartsOk(s) && ClosesOk(s) && ClientsOk(s) && CallsOk(s) && StartTask(s, t, made).Some?
    ensures ClientsOk(StartTask(s, t, made).value) && CallsOk(StartTask(s, t, made).value)
  {
    hide StartsOk, ClosesOk, ClientsOk, CallsOk;
    if s.starts[t].Creating? {
      CreateKeepsClients(s, t, made);
    } else {
      PublishKeepsClients(s, t, made);
    }
  }

  lemma StartTaskKeepsInv(s: State, t: nat, made: Option<nat>)
    requires Inv(s) && StartTask(s, t, made).Some?
    ensures Inv(StartTask(s, t, made).value)
  {
    hide StartsOk, GenerationOk, ClosesOk, NamesOk, ClientsOk, CallsOk, CountsOk, CallersFit, ClosersFit, InterestOk;
    hide StartsGrow, ClosesGrow, StartTask;
    var u := StartTask(s, t, made).value;
    StartStepTasks(s, t, made);
    StartStepClosing(s, t, made);
    PublishOrCreateKeepsClients(s, t, made);
    SameCloses(s.closes);
    FitsKept(s.callers, 0, StartCancelled, s.starts, s.closes, u.starts, u.closes);
  }

  // ----- the close task -----

  lemma CloseStepPhase(s: State, t: nat, ok: bool)
    requires StartsOk(s) && GenerationOk(s) && ClosesOk(s) && InterestOk(s) && CloseTask(s, t, ok).Some?
    ensures var u := CloseTask(s, t, ok).value;
            && StartsOk(u) && GenerationOk(u) && InterestOk(u)
            && u.starts == s.starts && u.callers == s.callers && u.closers == s.closers
            && u.sh.gens == s.sh.gens && u.next == s.next
  {
    assert s.sh.closeTask == Some(t) && CloseFits(s, s.closes[t]);
  }

  lemma CloseStepClosing(s: State, t: nat, ok: bool)
    requires StartsOk(s) && GenerationOk(s) && ClosesOk(s) && (s.sh.client.Some? <==> s.sh.phase.Open? || s.sh.phase.Draining?)
    requires CloseTask(s, t, ok).Some?
    ensures var u := CloseTask(s, t, ok).value;
            ClosesOk(u) && ClosesGrow(s.closes, u.closes) && u.closes.Keys == s.closes.Keys
  {
    var u := CloseTask(s, t, ok).value;
    assert s.sh.closeTask == Some(t) && CloseFits(s, s.closes[t]);
    assert u.closes == s.closes[t := u.closes[t]];
    assert u.sh.closeTask == if u.closes[t].CloseDone? then None else Some(t);
    assert !u.closes[t].CloseDone? ==> CloseFits(u, u.closes[t]);
  }

  lemma CloseStepTasks(s: State, t: nat, ok: bool)
    requires StartsOk(s) && GenerationOk(s) && ClosesOk(s) && ClientsOk(s) && NamesOk(s) && InterestOk(s)
    requires CloseTask(s, t, ok).Some?
    ensures var u := CloseTask(s, t, ok).value;
            && StartsOk(u) && GenerationOk(u) && ClosesOk(u) && NamesOk(u) && InterestOk(u)
            && ClosesGrow(s.closes, u.closes)
            && u.starts == s.starts && u.callers == s.callers && u.closers == s.closers && u.sh.gens == s.sh.gens
  {
    hide StartsOk, GenerationOk, ClosesOk, InterestOk, ClosesGrow, Accounted, CloseTask;
    CloseStepPhase(s, t, ok);
    CloseStepClosing(s, t, ok);
  }

  lemma DrainMoves(s: State, t: nat, ok: bool)
    requires StartsOk(s) && ClosesOk(s) && ClientsOk(s)
    requires CloseTask(s, t, ok).Some? && (s.closes[t].Checking? || s.closes[t].Woken?)
    ensures var u := CloseTask(s, t, ok).value;
            && s.sh.closeTask == Some(t) && u.sh.closeTask == Some(t) && t in u.closes && s.sh.phase.Draining?
            && u.calls == s.calls && u.sh.active == s.sh.active && u.created == s.created && u.disposed == s.disposed
            && BeingStarted(s) == {} == BeingStarted(u) && BeingClosed(s) == {}
            && !u.closes[t].Woken?
            && (if s.sh.active == 0 then u.sh.client.None? && Held(u) == {} && BeingClosed(u) == Held(s)
                                         && u.sh.phase.Closing? && !u.closes[t].Waiting?
                else u.sh == s.sh && Held(u) == Held(s) && BeingClosed(u) == {})
  {
    hide Accounted;
  }

  lemma DrainKeepsClients(s: State, t: nat, ok: bool)
    requires StartsOk(s) && ClosesOk(s) && ClientsOk(s) && CallsOk(s)
    requires CloseTask(s, t, ok).Some? && (s.closes[t].Checking? || s.closes[t].Woken?)
    ensures ClientsOk(CloseTask(s, t, ok).value) && CallsOk(CloseTask(s, t, ok).value)
  {
    hide Accounted, StartsOk, ClosesOk, CloseTask, Held, BeingStarted, BeingClosed;
    DrainMoves(s, t, ok);
    ClientMoves(s.created, s.disposed, Held(s));
    if s.sh.active == 0 {
      assert s.calls == map[];
    }
  }

  lemma DisposeKeepsClients(s: State, t: nat, ok: bool)
    requires StartsOk(s) && ClosesOk(s) && ClientsOk(s) && CallsOk(s)
    requires CloseTask(s, t, ok).Some? && s.closes[t].Disposing?
    ensures ClientsOk(CloseTask(s, t, ok).value) && CallsOk(CloseTask(s, t, ok).value)
  {
    hide Accounted;
    var u := CloseTask(s, t, ok).value;
    assert s.sh.closeTask == Some(t) && s.sh.phase.Closing?;
    assert Held(s) == {} == Held(u) && BeingStarted(s) == {} == BeingStarted(u);
    assert BeingClosed(u) == {};
    ClientMoves(s.created, s.disposed, BeingClosed(s));
  }

  lemma CloseStepClients(s: State, t: nat, ok: bool)
    requires StartsOk(s) && ClosesOk(s) && ClientsOk(s) && CallsOk(s)
    requires CloseTask(s, t, ok).Some? && (s.closes[t].AwaitingStart? || s.closes[t].Disposed?)
    ensures ClientsOk(CloseTask(s, t, ok).value) && CallsOk(CloseTask(s, t, ok).value)
  {
    hide Accounted;
    var u := CloseTask(s, t, ok).value;
    assert s.sh.closeTask == Some(t) && CloseFits(s, s.closes[t]);
    assert BeingClosed(s) == {} == BeingClosed(u);
    assert Held(u) == Held(s) && BeingStarted(u) == BeingStarted(s);
  }

  lemma CloseTaskKeepsClients(s: State, t: nat, ok: bool)
    requires StartsOk(s) && ClosesOk(s) && ClientsOk(s) && CallsOk(s) && CloseTask(s, t, ok).Some?
    ensures ClientsOk(CloseTask(s, t, ok).value) && CallsOk(CloseTask(s, t, ok).value)
  {
    hide StartsOk, ClosesOk, ClientsOk, CallsOk;
    match s.closes[t]
    case Checking | Woken => DrainKeepsClients(s, t, ok);
    case Disposing(_) => DisposeKeepsClients(s, t, ok);
    case AwaitingStart(_) => CloseStepClients(s, t, ok);
    case Disposed(_) => CloseStepClients(s, t, ok);
  }

  lemma CloseTaskKeepsInv(s: State, t: nat, ok: bool)
    requires Inv(s) && CloseTask(s, t, ok).Some?
    ensures Inv(CloseTask(s, t, ok).value)
  {
    hide StartsOk, GenerationOk, ClosesOk, NamesOk, ClientsOk, CallsOk, CountsOk, CallersFit, ClosersFit, InterestOk;
    hide StartsGrow, ClosesGrow, CloseTask;
    var u := CloseTask(s, t, ok).value;
    CloseStepTasks(s, t, ok);
    CloseTaskKeepsClients(s, t, ok);
    SameStarts(s.starts);
    FitsKept(s.callers, 0, StartCancelled, s.starts, s.closes, u.starts, u.closes);
    CloserFitsKept(s.closers, 0, CloserAtEntry, s.closes, u.closes);
  }

  // ----- calls -----

  /** Admission counts one more call on the held client and changes nothing else, or refuses and changes nothing. */
  lemma AdmitShape(s: State, k: nat)
    requires AdmitCall(s, k).Some?
    ensures k !in s.calls
    ensures AdmitCall(s, k).value == s ||
              (s.sh.client.Some?
               && AdmitCall(s, k).value == s.(sh := s.sh.(active := s.sh.active + 1), calls := s.calls[k := s.sh.client.value])
               && s.sh.phase.Open? && s.sh.closeTask.None?)
  {
  }

  lemma OneMoreCall(calls: map<nat, nat>, k: nat, client: nat)
    requires k !in calls
    ensures |calls[k := client]| == |calls| + 1
  {
    assert calls[k := client].Keys == calls.Keys + {k};
    assert |calls[k := client]| == |calls[k := client].Keys| && |calls| == |calls.Keys|;
  }

  lemma AdmitKeepsCalls(s: State, k: nat)
    requires CallsOk(s) && AdmitCall(s, k).Some?
    ensures CallsOk(AdmitCall(s, k).value)
  {
    AdmitShape(s, k);
    var u := AdmitCall(s, k).value;
    hide AdmitCall;
    if u != s {
      OneMoreCall(s.calls, k, s.sh.client.value);
      assert u.sh.closeTask.None?;
    }
  }

  /** The count of calls takes no part in the other conditions. */
  lemma OnlyCallsChange(s: State, u: State)
    requires u == s.(sh := s.sh.(active := u.sh.active), calls := u.calls)
    requires StartsOk(s) && GenerationOk(s) && ClosesOk(s) && NamesOk(s) && InterestOk(s)
    ensures StartsOk(u) && GenerationOk(u) && ClosesOk(u) && NamesOk(u) && InterestOk(u)
  {
  }

  lemma OnlyCallsChangeClients(s: State, u: State)
    requires u == s.(sh := s.sh.(active := u.sh.active), calls := u.calls) && ClientsOk(s)
    ensures ClientsOk(u)
  {
    hide Accounted;
    assert Held(s) == Held(u) && BeingStarted(s) == BeingStarted(u) && BeingClosed(s) == BeingClosed(u);
  }

  lemma AdmitKeepsInv(s: State, k: nat)
    requires Inv(s) && AdmitCall(s, k).Some?
    ensures Inv(AdmitCall(s, k).value)
  {
    var u := AdmitCall(s, k).value;
    AdmitShape(s, k);
    hide AdmitCall, StartsOk, GenerationOk, ClosesOk, NamesOk, ClientsOk, CallsOk, CountsOk, CallersFit, ClosersFit;
    hide InterestOk;
    AdmitKeepsCalls(s, k);
    OnlyCallsChange(s, u);
    OnlyCallsChangeClients(s, u);
  }

  lemma FinalizeCloses(s: State, k: nat)
    requires ClosesOk(s) && k in s.calls
    ensures var u := FinalizeCallStep(s, k).value;
            ClosesOk(u) && ClosesGrow(s.closes, u.closes) && u.closes.Keys == s.closes.Keys
  {
    assert forall t | t in s.closes :: NotifyAll(s.closes)[t].CloseDone? <==> s.closes[t].CloseDone?;
  }

  lemma FinalizeCalls(s: State, k: nat)
    requires CallsOk(s) && k in s.calls
    ensures CallsOk(FinalizeCallStep(s, k).value)
  {
    var calls := s.calls - {k};
    assert s.calls.Keys == calls.Keys + {k};
    assert |s.calls.Keys| == |s.calls| && |calls.Keys| == |calls|;
  }

  lemma FinalizeClients(s: State, k: nat)
    requires ClientsOk(s) && k in s.calls
    ensures ClientsOk(FinalizeCallStep(s, k).value)
  {
    hide Accounted;
    var u := FinalizeCallStep(s, k).value;
    assert Held(s) == Held(u) && BeingStarted(s) == BeingStarted(u) && BeingClosed(s) == BeingClosed(u);
  }

  lemma FinalizeKeepsInv(s: State, k: nat)
    requires Inv(s) && FinalizeCallStep(s, k).Some?
    ensures Inv(FinalizeCallStep(s, k).value)
  {
    hide ClosesOk, ClientsOk, CallsOk, CountsOk, CallersFit, ClosersFit, StartsGrow, ClosesGrow, NotifyAll;
    var u := FinalizeCallStep(s, k).value;
    FinalizeCloses(s, k);
    FinalizeCalls(s, k);
    FinalizeClients(s, k);
    SameStarts(s.starts);
    FitsKept(s.callers, 0, StartCancelled, s.starts, s.closes, u.starts, u.closes);
    CloserFitsKept(s.closers, 0, CloserAtEntry, s.closes, u.closes);
  }

  // ----- every step, every run -----

  lemma StepKeepsInv(s: State, l: Label)
    requires Inv(s) && Step(s, l).Some?
    ensures Inv(Step(s, l).value)
  {
    hide Inv, Moved, CloserMoved, CallerRegion, CloserRegion, StartTask, CloseTask, AdmitCall, FinalizeCallStep;
    hide CallerResumed, CallerCancelled, CloserResumed, CloserInterrupted;
    match l
    case CallStart(c) => ArrivalKeepsInv(s, c);
    case StartRegion(c) => RegionKeepsInv(s, c);
    case StartResumes(c) => ResumeKeepsInv(s, c);
    case StartIsCancelled(c) => CancelKeepsInv(s, c);
    case CallClose(c) => CloserWakesKeepsInv(s, c);
    case CloseRegion(c) => CloserRegionKeepsInv(s, c);
    case CloseResumes(c) => CloserWakesKeepsInv(s, c);
    case CloseIsCancelled(c) => CloserWakesKeepsInv(s, c);
    case StartTaskStep(t, made) => StartTaskKeepsInv(s, t, made);
    case CloseTaskStep(t, ok) => CloseTaskKeepsInv(s, t, ok);
    case AdmitStep(k) => AdmitKeepsInv(s, k);
    case FinalizeStep(k) => FinalizeKeepsInv(s, k);
  }

  lemma ArrivalKeepsInv(s: State, c: nat)
    requires Inv(s) && c !in s.callers
    ensures Inv(Moved(s, c, AtEntry))
  {
    hide Inv;
    QuietMoveKeepsInv(s, c, AtEntry);
  }

  lemma {:induction false} RunKeepsInv(s: State, ls: seq<Label>)
    requires Inv(s) && Run(s, ls).Some?
    ensures Inv(Run(s, ls).value)
    decreases |ls|
  {
    hide Inv, Step;
    if ls != [] {
      StepKeepsInv(s, ls[0]);
      RunKeepsInv(Step(s, ls[0]).value, ls[1..]);
    }
  }
}
