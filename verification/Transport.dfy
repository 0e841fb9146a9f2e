/**
  The lock-protected regions of the shared JSON transport.

  Every `async with` block of `OpenAIJSONTransport` is one atomic region.  A region is a
  method of `OpenAIJSONTransport` that updates the object's fields, proved
  against a function on `Shared`, the value of those fields.  The functions are
  what `TransportRuns` interleaves.

  Tasks and start generations are named by numbers that are never reused; the
  start task and the generation born with it share one number.
*/
module Transport {
  import opened Wrappers

  datatype Phase = New | Starting | Open | Draining | Closing | Closed | Broken

  datatype Generation = Generation(waiters: int, owners: int)

  /** The fields of one transport object. */
  datatype Shared = Shared(
    phase: Phase,
    client: Option<nat>,
    active: int,
    startTask: Option<nat>,
    startGen: Option<nat>,
    closeTask: Option<nat>,
    gens: map<nat, Generation>)

  const FRESH := Shared(New, None, 0, None, None, None, map[])

  /** The close coroutine a region spawned, if it spawned one. */
  datatype Spawn = NoSpawn | SpawnClose | SpawnCloseAfterStart(start: nat)

  /** What one pass through the locked part of `start` decided. */
  datatype StartEntry =
    | EntryFailed
    | EntryWaitsForClose(task: nat)
    | EntryOwns(gen: nat)
    | EntryWaitsForStart(gen: nat, task: nat)
    | EntrySpawns(gen: nat, task: nat)

  function Counted(gens: map<nat, Generation>, gen: nat, waiters: int, owners: int): (r: map<nat, Generation>)
    ensures r.Keys == gens.Keys
  {
    if gen in gens
    then gens[gen := Generation(gens[gen].waiters + waiters, gens[gen].owners + owners)]
    else gens
  }

  function Bump(s: Shared, gen: nat, waiters: int, owners: int): Shared {
    s.(gens := Counted(s.gens, gen, waiters, owners))
  }

  function EnterStart(s: Shared, tid: nat): (Shared, StartEntry) {
    if s.closeTask.Some? then (s, EntryWaitsForClose(s.closeTask.value))
    else
      match s.phase
      case Open =>
        if s.startGen.None? then (s, EntryFailed)
        else (Bump(s, s.startGen.value, 0, 1), EntryOwns(s.startGen.value))
      case Starting =>
        if s.startGen.None? then (s, EntryFailed)
        else
          (Bump(s, s.startGen.value, 1, 0),
           if s.startTask.None? then EntryFailed
           else EntryWaitsForStart(s.startGen.value, s.startTask.value))
      case New | Closed =>
        (s.(phase := Starting, startTask := Some(tid), startGen := Some(tid),
            gens := s.gens[tid := Generation(1, 0)]),
         EntrySpawns(tid, tid))
      case _ => (s, EntryFailed)
  }

  function PublishStart(s: Shared, me: nat, made: Option<nat>): Shared {
    var t := if made.Some? then s.(client := made, phase := Open)
             else s.(client := None, startGen := None, phase := Broken);
    if t.startTask == Some(me) then t.(startTask := None) else t
  }

  function EnsureCloseIntent(s: Shared, start: Option<nat>, tid: nat): (Shared, Option<nat>, Spawn) {
    if s.closeTask.Some? then (s, s.closeTask, NoSpawn)
    else if s.phase == Starting && start.Some? then
      (s.(closeTask := Some(tid)), Some(tid), SpawnCloseAfterStart(start.value))
    else if s.phase == Open then
      (s.(phase := Draining, closeTask := Some(tid)), Some(tid), SpawnClose)
    else (s, None, NoSpawn)
  }

  predicate NoInterest(s: Shared, gen: nat) {
    s.startGen == Some(gen) && gen in s.gens && s.gens[gen] == Generation(0, 0)
  }

  function FinishStartIntent(s: Shared, gen: nat, start: nat, claim: bool, rollbackIfLast: bool, tid: nat)
    : (Shared, Option<nat>, Spawn)
  {
    var t := Bump(s, gen, -1, if claim then 1 else 0);
    if rollbackIfLast && NoInterest(t, gen) then EnsureCloseIntent(t, Some(start), tid)
    else (t, None, NoSpawn)
  }

  function RollbackUnownedStart(s: Shared, gen: nat, start: nat, relinquish: bool, tid: nat)
    : (Shared, Option<nat>, Spawn)
  {
    var t := if relinquish then Bump(s, gen, 0, -1) else s;
    if NoInterest(t, gen) then EnsureCloseIntent(t, Some(start), tid) else (t, None, NoSpawn)
  }

  /** One look at the drain condition: `None` means wait, otherwise the client taken away (if any). */
  function Drain(s: Shared): (Shared, Option<Option<nat>>) {
    if s.active != 0 then (s, None)
    else (s.(phase := Closing, client := None), Some(s.client))
  }

  function ForgetClose(s: Shared, me: nat): Shared {
    if s.closeTask == Some(me) then s.(closeTask := None) else s
  }

  function PublishClose(s: Shared, me: nat, ok: bool): Shared {
    ForgetClose(s.(phase := if ok then Closed else Broken, startGen := None), me)
  }

  /** The region a close takes once the start it waited for has ended: `Some` is its final answer. */
  function CloseAfterStart(s: Shared, me: nat, started: bool): (Shared, Option<bool>) {
    if !started then (ForgetClose(s.(phase := Broken, startGen := None), me), Some(false))
    else
      match s.phase
      case Open => (s.(phase := Draining), None)
      case Closed => (ForgetClose(s, me), Some(true))
      case Broken => (ForgetClose(s, me), Some(false))
      case _ => (s, None)
  }

  datatype CloseEntry = CloseReturns | CloseFails | CloseSettles(task: nat)

  function EnterClose(s: Shared, tid: nat): (Shared, CloseEntry, Spawn) {
    if s.phase == New then (s.(phase := Closed, startGen := None), CloseReturns, NoSpawn)
    else if s.phase == Closed then (s, CloseReturns, NoSpawn)
    else if s.closeTask.Some? then (s, CloseSettles(s.closeTask.value), NoSpawn)
    else if s.phase == Starting || s.phase == Open then
      var (t, task, spawn) := EnsureCloseIntent(s, if s.phase == Starting then s.startTask else None, tid);
      (t, if task.Some? then CloseSettles(task.value) else CloseFails, spawn)
    else (s, CloseFails, NoSpawn)
  }

  function FinalizeCall(s: Shared): (Shared, bool) {
    (s.(active := s.active - 1), s.active == 1)
  }

  function Admit(s: Shared): (Shared, Option<nat>) {
    if s.phase != Open || s.client.None? || s.closeTask.Some? then (s, None)
    else (s.(active := s.active + 1), s.client)
  }

  /** The transport object: each method body is one locked region of the Python class. */
  class OpenAIJSONTransport {
    var phase: Phase
    var client: Option<nat>
    var active: int
    var startTask: Option<nat>
    var startGen: Option<nat>
    var closeTask: Option<nat>
    var gens: map<nat, Generation>

    ghost function View(): Shared
      reads this
    {
      Shared(phase, client, active, startTask, startGen, closeTask, gens)
    }

    constructor ()
      ensures View() == FRESH
    {
      phase, client, active, startTask := New, None, 0, None;
      startGen, closeTask, gens := None, None, map[];
    }

    method Count(gen: nat, waiters: int, owners: int)
      modifies this`gens
      ensures View() == Bump(old(View()), gen, waiters, owners)
    {
      if gen in gens {
        gens := gens[gen := Generation(gens[gen].waiters + waiters, gens[gen].owners + owners)];
      }
    }

    method Start(tid: nat) returns (entry: StartEntry)
      modifies this
      ensures (View(), entry) == EnterStart(old(View()), tid)
    {
      if closeTask.Some? {
        return EntryWaitsForClose(closeTask.value);
      }
      match phase
      case Open =>
        if startGen.None? {
          return EntryFailed;
        }
        Count(startGen.value, 0, 1);
        entry := EntryOwns(startGen.value);
      case Starting =>
        if startGen.None? {
          return EntryFailed;
        }
        Count(startGen.value, 1, 0);
        entry := if startTask.None? then EntryFailed else EntryWaitsForStart(startGen.value, startTask.value);
      case New | Closed =>
        gens := gens[tid := Generation(1, 0)];
        startGen := Some(tid);
        phase := Starting;
        startTask := Some(tid);
        entry := EntrySpawns(tid, tid);
      case _ =>
        entry := EntryFailed;
    }

    method StartPublishes(me: nat, made: Option<nat>)
      modifies this
      ensures View() == PublishStart(old(View()), me, made)
    {
      if made.Some? {
        client := made;
        phase := Open;
      } else {
        client := None;
        startGen := None;
        phase := Broken;
      }
      if startTask == Some(me) {
        startTask := None;
      }
    }

    method EnsureIntent(start: Option<nat>, tid: nat) returns (task: Option<nat>, spawn: Spawn)
      modifies this
      ensures (View(), task, spawn) == EnsureCloseIntent(old(View()), start, tid)
    {
      if closeTask.Some? {
        return closeTask, NoSpawn;
      }
      if phase == Starting && start.Some? {
        closeTask := Some(tid);
        return closeTask, SpawnCloseAfterStart(start.value);
      }
      if phase == Open {
        phase := Draining;
        closeTask := Some(tid);
        return closeTask, SpawnClose;
      }
      return closeTask, NoSpawn;
    }

    method FinishStart(gen: nat, start: nat, claim: bool, rollbackIfLast: bool, tid: nat)
      returns (rollback: Option<nat>, spawn: Spawn)
      modifies this
      ensures (View(), rollback, spawn) == FinishStartIntent(old(View()), gen, start, claim, rollbackIfLast, tid)
    {
      rollback, spawn := None, NoSpawn;
      Count(gen, -1, if claim then 1 else 0);
      if rollbackIfLast && startGen == Some(gen) && gen in gens && gens[gen].waiters == 0 && gens[gen].owners == 0 {
        rollback, spawn := EnsureIntent(Some(start), tid);
      }
    }

    method RollbackStart(gen: nat, start: nat, relinquish: bool, tid: nat)
      returns (rollback: Option<nat>, spawn: Spawn)
      modifies this
      ensures (View(), rollback, spawn) == RollbackUnownedStart(old(View()), gen, start, relinquish, tid)
    {
      rollback, spawn := None, NoSpawn;
      if relinquish {
        Count(gen, 0, -1);
      }
      if startGen == Some(gen) && gen in gens && gens[gen].waiters == 0 && gens[gen].owners == 0 {
        rollback, spawn := EnsureIntent(Some(start), tid);
      }
    }

    method DrainOnce() returns (taken: Option<Option<nat>>)
      modifies this
      ensures (View(), taken) == Drain(old(View()))
    {
      if active != 0 {
        return None;
      }
      phase := Closing;
      taken := Some(client);
      client := None;
    }

    method ClosePublishes(me: nat, ok: bool)
      modifies this
      ensures View() == PublishClose(old(View()), me, ok)
    {
      phase := if ok then Closed else Broken;
      startGen := None;
      Forget(me);
    }

    method Forget(lifecycle: nat)
      modifies this`closeTask
      ensures View() == ForgetClose(old(View()), lifecycle)
    {
      if closeTask == Some(lifecycle) {
        closeTask := None;
      }
    }

    method AfterStart(me: nat, started: bool) returns (answer: Option<bool>)
      modifies this
      ensures (View(), answer) == CloseAfterStart(old(View()), me, started)
    {
      if !started {
        phase := Broken;
        startGen := None;
        Forget(me);
        return Some(false);
      }
      match phase
      case Open =>
        phase := Draining;
        answer := None;
      case Closed =>
        Forget(me);
        answer := Some(true);
      case Broken =>
        Forget(me);
        answer := Some(false);
      case _ =>
        answer := None;
    }

    method Close(tid: nat) returns (entry: CloseEntry, spawn: Spawn)
      modifies this
      ensures (View(), entry, spawn) == EnterClose(old(View()), tid)
    {
      spawn := NoSpawn;
      if phase == New {
        phase := Closed;
        startGen := None;
        return CloseReturns, spawn;
      }
      if phase == Closed {
        return CloseReturns, spawn;
      }
      var lifecycle := closeTask;
      if closeTask.None? && phase == Starting {
        lifecycle, spawn := EnsureIntent(startTask, tid);
      } else if closeTask.None? && phase == Open {
        lifecycle, spawn := EnsureIntent(None, tid);
      }
      entry := if lifecycle.Some? then CloseSettles(lifecycle.value) else CloseFails;
    }

    method CallEnds() returns (notify: bool)
      modifies this`active
      ensures (View(), notify) == FinalizeCall(old(View()))
    {
      active := active - 1;
      notify := active == 0;
    }

    method AdmitCall() returns (lent: Option<nat>)
      modifies this`active
      ensures (View(), lent) == Admit(old(View()))
    {
      if phase != Open || client.None? || closeTask.Some? {
        return None;
      }
      active := active + 1;
      lent := client;
    }
  }
}
