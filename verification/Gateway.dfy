/**
 The stateful parts of gateway/app.py as objects: the tracked swap task with the
 mutex behind it, and the handler that owns a lease until it hands it over.
 */
module Gateway {
  import opened Common
  import S = SwapSpec
  import A = AdmissionSpec
  import G = GatewaySpec
  import opened Admission

  /** The module globals, the event loop's tasks and the orchestrator's swap fields. */
  class SwapTasks {
    var tasks: seq<S.Task>
    var activeTask: Option<nat>
    var activeTarget: Option<Profile>
    var lockHolder: Option<nat>
    var activeProfile: Option<Profile>
    ghost var adopted: Option<Profile>
    ghost var claims: seq<nat>

    ghost function View(): S.Swap
      reads this
    {
      S.Swap(tasks, activeTask, activeTarget, lockHolder, activeProfile, adopted, claims)
    }

    constructor (adopted: Option<Profile>)
      ensures View() == S.Initial(adopted) && S.Inv(View())
    {
      tasks, activeTask, activeTarget, lockHolder, activeProfile := [], None, None, None, adopted;
      this.adopted, claims := adopted, [];
    }

    method GetOrCreateSwapTask(target: Profile, force: bool) returns (task: nat)
      requires S.Inv(View())
      modifies this
      ensures (View(), task) == S.GetOrCreate(old(View()), target, force)
      ensures S.Inv(View()) && S.Unfinished(View(), task) && View().tasks[task].target == target
      ensures activeTask == Some(task) && activeTarget == Some(target)
    {
      if activeTask.Some? && !tasks[activeTask.value].phase.Done? && activeTarget == Some(target) {
        return activeTask.value;
      }
      S.CreateKeeps(View(), target, force, true);
      activeTarget := Some(target);
      task := |tasks|;
      tasks := tasks + [S.Task(target, force, true, S.Queued)];
      activeTask := Some(task);
    }

    /** The swap section of _chat_completions: the task to wait for, if any. */
    method SwapSection(target: Profile, ready: bool) returns (task: Option<nat>)
      requires S.Inv(View())
      modifies this
      ensures S.Inv(View())
      ensures task.Some? == S.NeedsSwap(old(View()), target, ready)
      ensures task == None ==> View() == old(View())
      ensures task.Some? ==> (View(), task.value) == S.GetOrCreate(old(View()), target, S.Forces(old(View()), target, ready))
    {
      var swapping := lockHolder.Some?;
      if activeProfile != Some(target) || !ready || swapping {
        var force := activeProfile == Some(target) && !ready && !swapping;
        var t := GetOrCreateSwapTask(target, force);
        return Some(t);
      }
      return None;
    }

    /** switch_profile up to its lifecycle work: mutex, then the re-check. */
    method EnterSwap(task: nat) returns (skipped: bool)
      requires S.Inv(View()) && S.Enabled(View(), S.Enter(task))
      modifies this
      ensures S.Inv(View()) && View() == S.EnterLock(old(View()), task)
      ensures skipped <==> lockHolder == None
    {
      S.StepKeeps(View(), S.Enter(task));
      skipped := activeProfile == Some(tasks[task].target) && !tasks[task].force;
      if skipped {
        Return(task, true);
      } else {
        lockHolder := Some(task);
        tasks := tasks[task := tasks[task].(phase := S.Working)];
      }
    }

    /** switch_profile from the end of its work: claim the profile, free the mutex. */
    method LeaveSwap(task: nat, ok: bool)
      requires S.Inv(View()) && S.Enabled(View(), S.Leave(task, ok))
      modifies this
      ensures S.Inv(View()) && View() == S.LeaveLock(old(View()), task, ok)
    {
      S.StepKeeps(View(), S.Leave(task, ok));
      if ok {
        activeProfile := Some(tasks[task].target);
        claims := claims + [task];
      }
      lockHolder := None;
      Return(task, ok);
    }

    /** The finally of _execute_swap_and_drain. */
    method Return(task: nat, ok: bool)
      requires task < |tasks|
      modifies this`tasks, this`activeTask, this`activeTarget
      ensures View() == S.Return(old(View()), task, ok)
    {
      tasks := tasks[task := tasks[task].(phase := S.Done(ok))];
      if activeTask == Some(task) {
        activeTask := None;
        activeTarget := None;
      }
    }
  }

  /** A lease that reached its holder; releasing it again is harmless. */
  ghost predicate Usable(l: Lease)
    reads l, l.queue, l.queue.Repr
  {
    l.queue.Valid() && l.queue.Issues(l) && A.Issued(l.queue.gate, l.ticket)
  }

  class AdmittedStreamingResponse {
    var lease: Lease?

    constructor ()
      ensures lease == null
    {
      lease := null;
    }

    /** The finally of __call__, after the body iterator is closed: the EndStream step of
        any system `s` in which this request streams. */
    method Close(ghost s: G.System)
      requires lease != null ==> Usable(lease)
      modifies if lease != null then {lease.queue as object} + lease.queue.Repr else {}
      ensures lease != null ==> lease.released && lease.queue.Valid()
      ensures lease != null ==> lease.queue.gate == A.ReleaseLease(old(lease.queue.gate), lease.ticket)
      ensures lease != null && s.gate == old(lease.queue.gate) && G.At(s, lease.ticket, G.Streaming) ==>
        lease.queue.gate == G.Step(s, G.EndStream(lease.ticket)).gate
    {
      if lease != null {
        lease.Release();
      }
    }
  }

  lemma SettledGate(s: G.System, t: A.Ticket)
    requires G.Enabled(s, G.Settle(t))
    ensures G.Step(s, G.Settle(t)).gate == if s.phases[t] == G.Returning(true) then s.gate else A.ReleaseLease(s.gate, t)
  {
  }

  /** The nonlocal variables of chat_completions. */
  class ChatHandler {
    var lease: Lease?
    var transferred: bool

    constructor ()
      ensures lease == null && !transferred
    {
      lease, transferred := null, false;
    }

    /** What follows until_disconnect: the Settle step of any system `s` in which this
        request has its answer.  `response` is null when the result is not a streaming one
        or an exception came out instead. */
    method Conclude(response: AdmittedStreamingResponse?, ghost s: G.System)
      requires !transferred && (lease != null ==> Usable(lease))
      requires response != null ==> response.lease == null
      modifies this`transferred, response
      modifies if lease != null && response == null then {lease.queue as object} + lease.queue.Repr else {}
      // exactly one of handler and response answers for the lease afterwards
      ensures response != null ==> transferred && response.lease == lease
      ensures response != null && lease != null ==> Usable(lease) && lease.released == old(lease.released)
      ensures response == null ==> !transferred && (lease != null ==> lease.released && lease.queue.Valid())
      ensures response == null && lease != null ==>
        lease.queue.gate == A.ReleaseLease(old(lease.queue.gate), lease.ticket)
      ensures lease != null && s.gate == old(lease.queue.gate) && G.At(s, lease.ticket, G.Returning(response != null)) ==>
        lease.queue.gate == G.Step(s, G.Settle(lease.ticket)).gate
    {
      if lease != null && G.At(s, lease.ticket, G.Returning(response != null)) {
        SettledGate(s, lease.ticket);
      }
      if response != null {
        response.lease := lease;
        transferred := true;
      }
      if lease != null && !transferred {
        lease.Release();
      }
    }
  }
}
