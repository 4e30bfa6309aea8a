/**
 Swap tasks of gateway/app.py and the mutex of switch_profile in
 gateway/orchestrator.py, as a state machine on values.

 A task is Queued from its creation until it holds the mutex, Working while it does
 lifecycle work under it, and Done from the stretch in which it leaves the mutex (the
 finally of _execute_swap_and_drain runs in that same stretch).
 */
module SwapSpec {
  import opened Common

  datatype Phase = Queued | Working | Done(ok: bool)

  datatype Task = Task(target: Profile, force: bool, tracked: bool, phase: Phase)

  datatype Swap = Swap(
    tasks: seq<Task>,
    slot: Option<nat>,            // _active_swap_task
    slotTarget: Option<Profile>,  // _active_swap_target
    lock: Option<nat>,            // the holder of _swap_lock
    active: Option<Profile>,      // _active_profile
    adopted: Option<Profile>,     // the profile found at start-up
    claims: seq<nat>)             // tasks that completed their five steps, in order

  function Initial(adopted: Option<Profile>): Swap {
    Swap([], None, None, None, adopted, adopted, [])
  }

  predicate Swapping(s: Swap) { s.lock.Some? }

  predicate Unfinished(s: Swap, i: nat) {
    i < |s.tasks| && !s.tasks[i].phase.Done?
  }

  // ---------------------------------------------------------------- operations

  /** The reuse test of _get_or_create_swap_task. */
  predicate Reuses(s: Swap, target: Profile) {
    s.slot.Some? && Unfinished(s, s.slot.value) && s.slotTarget == Some(target)
  }

  function Create(s: Swap, target: Profile, force: bool, tracked: bool): Swap {
    var s' := s.(tasks := s.tasks + [Task(target, force, tracked, Queued)]);
    if tracked then s'.(slot := Some(|s.tasks|), slotTarget := Some(target)) else s'
  }

  function GetOrCreate(s: Swap, target: Profile, force: bool): (Swap, nat) {
    if Reuses(s, target) then (s, s.slot.value) else (Create(s, target, force, true), |s.tasks|)
  }

  function SetPhase(s: Swap, i: nat, p: Phase): Swap
    requires i < |s.tasks|
  {
    s.(tasks := s.tasks[i := s.tasks[i].(phase := p)])
  }

  /** The task returns: the slot is cleared only if it still points at this task. */
  function Return(s: Swap, i: nat, ok: bool): Swap
    requires i < |s.tasks|
  {
    var s' := SetPhase(s, i, Done(ok));
    if s.slot == Some(i) then s'.(slot := None, slotTarget := None) else s'
  }

  /** Under the mutex, the re-check: nothing to do for the profile already active. */
  predicate Skips(s: Swap, i: nat)
    requires i < |s.tasks|
  {
    s.active == Some(s.tasks[i].target) && !s.tasks[i].force
  }

  function EnterLock(s: Swap, i: nat): Swap
    requires i < |s.tasks|
  {
    if Skips(s, i) then Return(s, i, true) else SetPhase(s, i, Working).(lock := Some(i))
  }

  function LeaveLock(s: Swap, i: nat, ok: bool): Swap
    requires i < |s.tasks|
  {
    var s' := Return(s, i, ok).(lock := None);
    if ok then s'.(active := Some(s.tasks[i].target), claims := s.claims + [i]) else s'
  }

  // ---------------------------------------------------------------- step relation

  datatype Event =
    | Request(target: Profile, ready: bool) // a request finds that it needs a swap
    | Admin(target: Profile, force: bool)   // the admin endpoint or start-up
    | Enter(task: nat)
    | Leave(task: nat, ok: bool)

  /** The test of _chat_completions; `ready` is the target container's READY state. */
  predicate NeedsSwap(s: Swap, target: Profile, ready: bool) {
    s.active != Some(target) || !ready || Swapping(s)
  }

  predicate Forces(s: Swap, target: Profile, ready: bool) {
    s.active == Some(target) && !ready && !Swapping(s)
  }

  predicate Enabled(s: Swap, e: Event) {
    match e
    case Request(p, ready) => NeedsSwap(s, p, ready)
    case Admin(_, _) => !Swapping(s)
    case Enter(i) => i < |s.tasks| && s.tasks[i].phase == Queued && s.lock == None
    case Leave(i, _) => i < |s.tasks| && s.lock == Some(i)
  }

  function Step(s: Swap, e: Event): Swap
    requires Enabled(s, e)
  {
    match e
    case Request(p, ready) => GetOrCreate(s, p, Forces(s, p, ready)).0
    case Admin(p, force) => Create(s, p, force, false)
    case Enter(i) => EnterLock(s, i)
    case Leave(i, ok) => LeaveLock(s, i, ok)
  }

  predicate Runs(s: Swap, es: seq<Event>)
    decreases |es|
  {
    es == [] || (Enabled(s, es[0]) && Runs(Step(s, es[0]), es[1..]))
  }

  function After(s: Swap, es: seq<Event>): Swap
    requires Runs(s, es)
    decreases |es|
  {
    if es == [] then s else After(Step(s, es[0]), es[1..])
  }

  // ---------------------------------------------------------------- invariant

  /** The target of the last swap that completed its steps, or the adopted profile. */
  function LastClaim(s: Swap): Option<Profile> {
    if s.claims == [] then s.adopted
    else
      var last := s.claims[|s.claims| - 1];
      if last < |s.tasks| && s.tasks[last].phase == Done(true) then Some(s.tasks[last].target) else None
  }

  /** The slot holds an unfinished tracked task and knows its target. */
  ghost predicate SlotFits(s: Swap) {
    && (s.slot.Some? ==>
          Unfinished(s, s.slot.value) && s.tasks[s.slot.value].tracked &&
          s.slotTarget == Some(s.tasks[s.slot.value].target))
    && (s.slot == None ==> s.slotTarget == None)
  }

  /** Exactly the holder of the mutex works, and on the profile already active only by force. */
  ghost predicate LockFits(s: Swap) {
    && (s.lock.Some? ==> s.lock.value < |s.tasks|)
    && (forall i :: 0 <= i < |s.tasks| ==> (s.tasks[i].phase == Working <==> s.lock == Some(i)))
    && (s.lock.Some? ==> s.tasks[s.lock.value].force || s.active != Some(s.tasks[s.lock.value].target))
  }

  /** The active profile is the last one claimed, and each claim was news or forced. */
  ghost predicate ClaimsFit(s: Swap) {
    && (forall k :: 0 <= k < |s.claims| ==> s.claims[k] < |s.tasks| && s.tasks[s.claims[k]].phase == Done(true))
    && s.active == LastClaim(s)
    && (forall k :: 0 <= k < |s.claims| ==> s.tasks[s.claims[k]].force || Before(s, k) != Some(s.tasks[s.claims[k]].target))
  }

  ghost predicate Inv(s: Swap) {
    SlotFits(s) && LockFits(s) && ClaimsFit(s)
  }

  /** The profile that was active when the k-th claimed swap did its work. */
  function Before(s: Swap, k: nat): Option<Profile>
    requires k < |s.claims|
    requires forall j :: 0 <= j < |s.claims| ==> s.claims[j] < |s.tasks|
  {
    if k == 0 then s.adopted else Some(s.tasks[s.claims[k - 1]].target)
  }

  lemma CreateKeeps(s: Swap, target: Profile, force: bool, tracked: bool)
    requires Inv(s)
    ensures Inv(Create(s, target, force, tracked))
  {
  }

  lemma ReturnKeeps(s: Swap, i: nat, ok: bool)
    requires Inv(s) && Unfinished(s, i)
    requires s.lock != Some(i)
    ensures Inv(Return(s, i, ok))
  {
    ReturnSlot(s, i, ok);
    ReturnClaims(s, i, ok);
  }

  lemma ReturnSlot(s: Swap, i: nat, ok: bool)
    requires SlotFits(s) && LockFits(s) && Unfinished(s, i) && s.lock != Some(i)
    ensures SlotFits(Return(s, i, ok)) && LockFits(Return(s, i, ok))
  {
  }

  lemma ReturnClaims(s: Swap, i: nat, ok: bool)
    requires ClaimsFit(s) && Unfinished(s, i)
    ensures ClaimsFit(Return(s, i, ok))
  {
  }

  lemma LeaveKeeps(s: Swap, i: nat, ok: bool)
    requires Inv(s) && s.lock == Some(i)
    ensures Inv(LeaveLock(s, i, ok))
  {
    if ok {
      LeaveClaiming(s, i);
    } else {
      LeaveFailing(s, i);
    }
  }

  lemma LeaveFailing(s: Swap, i: nat)
    requires Inv(s) && s.lock == Some(i)
    ensures Inv(LeaveLock(s, i, false))
  {
  }

  lemma LeaveClaiming(s: Swap, i: nat)
    requires Inv(s) && s.lock == Some(i)
    ensures Inv(LeaveLock(s, i, true))
  {
    LeaveClaims(s, i);
    LeaveLocked(s, i);
  }

  lemma LeaveLocked(s: Swap, i: nat)
    requires SlotFits(s) && LockFits(s) && s.lock == Some(i)
    ensures SlotFits(LeaveLock(s, i, true)) && LockFits(LeaveLock(s, i, true))
  {
  }

  lemma LeaveClaims(s: Swap, i: nat)
    requires ClaimsFit(s) && i < |s.tasks| && !s.tasks[i].phase.Done?
    requires s.tasks[i].force || s.active != Some(s.tasks[i].target)
    ensures ClaimsFit(LeaveLock(s, i, true))
  {
    var s' := LeaveLock(s, i, true);
    assert Before(s', |s.claims|) == s.active;
  }

  lemma StepKeeps(s: Swap, e: Event)
    requires Inv(s) && Enabled(s, e)
    ensures Inv(Step(s, e))
    ensures Step(s, e).adopted == s.adopted
  {
    match e
    case Request(p, ready) =>
      if !Reuses(s, p) {
        CreateKeeps(s, p, Forces(s, p, ready), true);
      }
    case Admin(p, force) => CreateKeeps(s, p, force, false);
    case Enter(i) =>
      if Skips(s, i) {
        ReturnKeeps(s, i, true);
      }
    case Leave(i, ok) => LeaveKeeps(s, i, ok);
  }

  lemma {:induction false} RunKeeps(s: Swap, es: seq<Event>)
    requires Inv(s) && Runs(s, es)
    ensures Inv(After(s, es)) && After(s, es).adopted == s.adopted
    decreases |es|
  {
    if es != [] {
      StepKeeps(s, es[0]);
      RunKeeps(Step(s, es[0]), es[1..]);
    }
  }

  // ---------------------------------------------------------------- theorems

  /** Over every run, racing callers, admin swaps and failures included: the active
      profile is the target of the last swap that completed (or the adopted one), at
      most one task works, and the slot never holds a finished task. */
  lemma ActiveIsLastClaimed(adopted: Option<Profile>, es: seq<Event>)
    requires Runs(Initial(adopted), es)
    ensures var s := After(Initial(adopted), es);
      && s.adopted == adopted && s.active == LastClaim(s)
      && (s.claims != [] ==> Unfinished(s, s.claims[|s.claims| - 1]) == false && s.active.Some?)
      && (forall i, j :: 0 <= i < |s.tasks| && 0 <= j < |s.tasks| && s.tasks[i].phase == Working && s.tasks[j].phase == Working ==> i == j)
      && (s.slot.Some? ==> Unfinished(s, s.slot.value) && s.slotTarget == Some(s.tasks[s.slot.value].target))
  {
    RunKeeps(Initial(adopted), es);
  }

  /** No redundant reload in any run: a completed swap to the profile that was already
      active when it worked was a forced one. */
  lemma NoRedundantReload(adopted: Option<Profile>, es: seq<Event>, k: nat)
    requires Runs(Initial(adopted), es) && k < |After(Initial(adopted), es).claims|
    ensures var s := After(Initial(adopted), es);
      && (forall j :: 0 <= j < |s.claims| ==> s.claims[j] < |s.tasks|)
      && var task := s.tasks[s.claims[k]];
         task.phase == Done(true) && (Before(s, k) == Some(task.target) ==> task.force)
  {
    RunKeeps(Initial(adopted), es);
  }

  lemma {:induction false} DoneStays(s: Swap, es: seq<Event>, i: nat)
    requires Inv(s) && Runs(s, es) && i < |s.tasks| && s.tasks[i].phase.Done?
    ensures !Unfinished(After(s, es), i)
    decreases |es|
  {
    if es != [] {
      StepKeeps(s, es[0]);
      DoneStays(Step(s, es[0]), es[1..], i);
    }
  }

  /** A task that has left the slot never comes back to it. */
  lemma {:induction false} SlotLeft(s: Swap, i: nat, es: seq<Event>)
    requires Inv(s) && Runs(s, es) && i < |s.tasks| && s.slot != Some(i)
    ensures After(s, es).slot != Some(i) && i < |After(s, es).tasks|
    decreases |es|
  {
    if es != [] {
      StepKeeps(s, es[0]);
      SlotLeft(Step(s, es[0]), i, es[1..]);
    }
  }

  ghost predicate OnlyFor(target: Profile, es: seq<Event>) {
    forall e :: e in es && e.Request? ==> e.target == target
  }

  /** While the slot's task is unfinished: a caller for its target, forced or not, joins it
      if and only if every request since it was put there was for that target too. */
  lemma {:induction false} CallersJoinIff(s: Swap, i: nat, target: Profile, es: seq<Event>, force: bool)
    requires Inv(s) && s.slot == Some(i) && s.slotTarget == Some(target)
    requires Runs(s, es) && Unfinished(After(s, es), i)
    ensures GetOrCreate(After(s, es), target, force).1 == i <==> OnlyFor(target, es)
    decreases |es|
  {
    if es != [] {
      var e, rest := es[0], es[1..];
      assert OnlyFor(target, es) <==> (e.Request? ==> e.target == target) && OnlyFor(target, rest) by {
        assert es == [e] + rest;
      }
      StepKeeps(s, e);
      var s' := Step(s, e);
      if s'.slot == Some(i) {
        CallersJoinIff(s', i, target, rest, force);
      } else {
        SlotLeft(s', i, rest);
        if s'.tasks[i].phase.Done? {
          DoneStays(s', rest, i);
        }
      }
    }
  }

  // ---------------------------------------------------------------- what force is for

  /** A call that asks for force: the admin's own, or a request that finds its profile
      active and not ready, with no swap at work. */
  predicate AsksForce(s: Swap, e: Event) {
    (e.Admin? && e.force) || (e.Request? && s.active == Some(e.target) && !e.ready && s.lock == None)
  }

  /** This event adds task i. */
  predicate Adds(s: Swap, e: Event, i: nat)
    requires Enabled(s, e)
  {
    i == |s.tasks| < |Step(s, e).tasks|
  }

  /** What was asked when a task was made stays with it. */
  lemma {:induction false} TaskStays(s: Swap, es: seq<Event>, i: nat)
    requires Runs(s, es) && i < |s.tasks|
    ensures var s' := After(s, es);
      i < |s'.tasks| && s'.tasks[i].force == s.tasks[i].force && s'.tasks[i].target == s.tasks[i].target
    decreases |es|
  {
    if es != [] {
      TaskStays(Step(s, es[0]), es[1..], i);
    }
  }

  /** In every run: a task made by a call that asked for force does its work when its turn
      comes, whatever is active then; one made without does it exactly if its target is
      not active then, and is done with success otherwise. */
  lemma ForcedTaskWorks(adopted: Option<Profile>, before: seq<Event>, e: Event, between: seq<Event>, i: nat)
    requires Runs(Initial(adopted), before)
    requires var s := After(Initial(adopted), before); Enabled(s, e) && Adds(s, e, i) && Runs(Step(s, e), between)
    requires var s := After(Initial(adopted), before); Enabled(After(Step(s, e), between), Enter(i))
    ensures var s := After(Initial(adopted), before);
      var w := After(Step(s, e), between);
      var w' := Step(w, Enter(i));
      && w'.tasks[i].target == e.target
      && (w'.lock == Some(i) && w'.tasks[i].phase == Working <==> AsksForce(s, e) || w.active != Some(e.target))
      && (w'.lock != Some(i) ==> w'.lock == None && w'.tasks[i].phase == Done(true) && w'.active == w.active)
  {
    var s := After(Initial(adopted), before);
    TaskStays(Step(s, e), between, i);
  }

  lemma {:induction false} OutcomeStays(s: Swap, es: seq<Event>, i: nat, ok: bool)
    requires Inv(s) && Runs(s, es) && i < |s.tasks| && s.tasks[i].phase == Done(ok) && (i in s.claims <==> ok)
    ensures var s' := After(s, es); i < |s'.tasks| && s'.tasks[i].phase == Done(ok) && (i in s'.claims <==> ok)
    decreases |es|
  {
    if es != [] {
      StepKeeps(s, es[0]);
      StepOutcome(s, es[0], i, ok);
      OutcomeStays(Step(s, es[0]), es[1..], i, ok);
    }
  }

  lemma StepOutcome(s: Swap, e: Event, i: nat, ok: bool)
    requires LockFits(s) && Enabled(s, e) && i < |s.tasks| && s.tasks[i].phase == Done(ok) && (i in s.claims <==> ok)
    ensures var s' := Step(s, e); i < |s'.tasks| && s'.tasks[i].phase == Done(ok) && (i in s'.claims <==> ok)
  {
  }

  /** A task that did its work ends, for good, as the work did: its waiters are told success
      exactly if its profile was claimed. */
  lemma WorkEnds(adopted: Option<Profile>, before: seq<Event>, i: nat, ok: bool, since: seq<Event>)
    requires Runs(Initial(adopted), before) && Enabled(After(Initial(adopted), before), Leave(i, ok))
    requires Runs(Step(After(Initial(adopted), before), Leave(i, ok)), since)
    ensures var s := Step(After(Initial(adopted), before), Leave(i, ok));
      && s.lock == None
      && var w := After(s, since); i < |w.tasks| && w.tasks[i].phase == Done(ok) && (i in w.claims <==> ok)
  {
    var s := After(Initial(adopted), before);
    RunKeeps(Initial(adopted), before);
    StepKeeps(s, Leave(i, ok));
    OutcomeStays(Step(s, Leave(i, ok)), since, i, ok);
  }
}
