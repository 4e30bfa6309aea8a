/**
 The chat endpoint of gateway/app.py: requests that pass the admission gate, wait for
 swap tasks, are served and return, composed with the gate and with the swap tasks.

 A request is named by its admission ticket.  One event is one suspension-free stretch
 of one coroutine.  `calls` counts the calls of lease.release; `orphans` are the swap
 tasks that some request left while it should have waited for them.
 */
module GatewaySpec {
  import opened Common
  import A = AdmissionSpec
  import S = SwapSpec

  type Ticket = A.Ticket

  /** Where a request is; the comments name the owner of its lease. */
  datatype Phase =
    | Acquiring                    // inside acquire: none, or the future it awaits
    | SwapWait(task: nat)          // the handler
    | Serving                      // the handler, awaiting the backend
    | Returning(streaming: bool)   // the handler, its work task being done
    | Streaming                    // the streaming response
    | Finished                     // nobody

  datatype System = System(
    gate: A.Gate,
    swap: S.Swap,
    longPolling: bool,
    phases: map<Ticket, Phase>,
    calls: map<Ticket, nat>,
    orphans: set<nat>)

  function Initial(limit: int, maxWaiting: int, longPolling: bool, adopted: Option<Profile>): System {
    System(A.Empty(limit, maxWaiting), S.Initial(adopted), longPolling, map[], map[], {})
  }

  datatype Event =
    | Arrive(profile: Profile, ready: bool)
    | Resume(ticket: Ticket, ready: bool)     // acquire returns a queued grant
    | CancelWait(ticket: Ticket)              // time-out or disconnect while queued
    | Handle(ticket: Ticket)                  // acquire raises
    | EnterSwap(task: nat)
    | LeaveSwap(task: nat, ok: bool)
    | Swapped(ticket: Ticket)                 // the awaited swap task is done
    | Abandon(ticket: Ticket)                 // time-out or disconnect during the swap wait
    | Reply(ticket: Ticket, streaming: bool)  // backend answer, error or cancellation
    | Settle(ticket: Ticket)                  // the handler's finally
    | Drop(ticket: Ticket)                    // cancelled before the response is handed over
    | EndStream(ticket: Ticket)               // the finally of the streaming response

  // ---------------------------------------------------------------- steps

  function WithPhase(s: System, t: Ticket, p: Phase): System {
    s.(phases := s.phases[t := p])
  }

  /** From holding the lease to the first suspension: the swap decision. */
  function Decide(s: System, t: Ticket, p: Profile, ready: bool): System {
    if !S.NeedsSwap(s.swap, p, ready) then WithPhase(s, t, Serving)
    else
      var (swap', i) := S.GetOrCreate(s.swap, p, S.Forces(s.swap, p, ready));
      var s' := s.(swap := swap');
      if s.longPolling then WithPhase(s', t, SwapWait(i))
      else WithPhase(s', t, Returning(false)).(orphans := s.orphans + {i})
  }

  function Enter(s: System, p: Profile, ready: bool): System {
    var t := s.gate.next;
    var s' := s.(gate := A.Acquire(s.gate, p), calls := s.calls[t := 0]);
    if A.FastPath(s.gate, p) then Decide(s', t, p, ready)
    else if |s.gate.waiting| >= s.gate.maxWaiting then WithPhase(s', t, Finished)
    else WithPhase(s', t, Acquiring)
  }

  /** A call of lease.release by the handler or the response. */
  function GiveBack(s: System, t: Ticket): System
    requires t in s.calls
  {
    WithPhase(s, t, Finished).(gate := A.ReleaseLease(s.gate, t), calls := s.calls[t := s.calls[t] + 1])
  }

  predicate At(s: System, t: Ticket, p: Phase) {
    t in s.phases && s.phases[t] == p && t in s.calls
  }

  predicate Waits(s: System, t: Ticket) {
    t in s.phases && s.phases[t].SwapWait?
  }

  predicate Enabled(s: System, e: Event) {
    match e
    case Arrive(_, _) => true
    case Resume(t, _) => t in s.gate.unseen && t in s.gate.leases
    case CancelWait(t) => A.Live(s.gate, t)
    case Handle(t) => A.Enabled(s.gate, A.Handle(t)) && t in s.calls
    case EnterSwap(i) => S.Enabled(s.swap, S.Enter(i))
    case LeaveSwap(i, ok) => S.Enabled(s.swap, S.Leave(i, ok))
    case Swapped(t) => Waits(s, t) && s.phases[t].task < |s.swap.tasks| && s.swap.tasks[s.phases[t].task].phase.Done?
    case Abandon(t) => Waits(s, t)
    case Reply(t, _) => At(s, t, Serving)
    case Settle(t) => At(s, t, Returning(true)) || At(s, t, Returning(false))
    case Drop(t) => At(s, t, Returning(true)) || At(s, t, Returning(false))
    case EndStream(t) => At(s, t, Streaming)
  }

  function Step(s: System, e: Event): System
    requires Enabled(s, e)
  {
    match e
    case Arrive(p, ready) => Enter(s, p, ready)
    case Resume(t, ready) =>
      Decide(s.(gate := A.Step(s.gate, A.Deliver(t))), t, s.gate.leases[t], ready)
    case CancelWait(t) => s.(gate := A.CancelFuture(s.gate, t))
    case Handle(t) =>
      WithPhase(s, t, Finished).(
        gate := A.RunHandler(s.gate, t),
        calls := if t in s.gate.unseen then s.calls[t := s.calls[t] + 1] else s.calls)
    case EnterSwap(i) => s.(swap := S.EnterLock(s.swap, i))
    case LeaveSwap(i, ok) => s.(swap := S.LeaveLock(s.swap, i, ok))
    case Swapped(t) =>
      WithPhase(s, t, if s.swap.tasks[s.phases[t].task].phase.ok then Serving else Returning(false))
    case Abandon(t) => WithPhase(s, t, Returning(false)).(orphans := s.orphans + {s.phases[t].task})
    case Reply(t, streaming) => WithPhase(s, t, Returning(streaming))
    case Settle(t) => if s.phases[t].streaming then WithPhase(s, t, Streaming) else GiveBack(s, t)
    case Drop(t) => GiveBack(s, t)
    case EndStream(t) => GiveBack(s, t)
  }

  predicate Runs(s: System, es: seq<Event>)
    decreases |es|
  {
    es == [] || (Enabled(s, es[0]) && Runs(Step(s, es[0]), es[1..]))
  }

  function After(s: System, es: seq<Event>): System
    requires Runs(s, es)
    decreases |es|
  {
    if es == [] then s else After(Step(s, es[0]), es[1..])
  }

  // ---------------------------------------------------------------- lease ownership

  /** Somewhere inside acquire. */
  predicate InQueue(g: A.Gate, t: Ticket) {
    t in g.unseen || t in g.doomed || t in A.Tickets(g.waiting)
  }

  /** Granted, delivered and not yet released. */
  predicate Held(g: A.Gate, t: Ticket) {
    t in g.leases && t !in g.unseen
  }

  /** The request's phase says who owns the lease; the gate says whether it is out. */
  ghost predicate Matches(g: A.Gate, t: Ticket, p: Phase, calls: nat) {
    match p
    case Acquiring => InQueue(g, t) && !Held(g, t) && calls == 0
    case Finished => !InQueue(g, t) && !Held(g, t) && calls == (if t in g.log then 1 else 0)
    case _ => Held(g, t) && !InQueue(g, t) && t !in g.turned && calls == 0
  }

  ghost predicate Owned(s: System) {
    && (forall t: Ticket :: t in s.phases <==> t < s.gate.next)
    && (forall t: Ticket :: t in s.phases ==> t in s.calls)
    && (forall t: Ticket :: t in s.phases ==> Matches(s.gate, t, s.phases[t], s.calls[t]))
  }

  // ---------------------------------------------------------------- swap waits

  ghost predicate WaitsFor(s: System, t: Ticket, i: nat) {
    t in s.phases && s.phases[t] == SwapWait(i)
  }

  ghost predicate Attended(s: System) {
    // who waits for a task holds a lease of the profile the task loads
    && (forall t :: Waits(s, t) ==>
          s.phases[t].task < |s.swap.tasks| && t in s.gate.leases &&
          s.swap.tasks[s.phases[t].task].target == s.gate.leases[t])
    // an unfinished task has a waiter, or one of its waiters left
    && (forall i: nat :: S.Unfinished(s.swap, i) ==> i in s.orphans || exists t :: WaitsFor(s, t, i))
    // unless somebody left, an unfinished task is the one in the slot
    && (s.orphans == {} ==> forall i: nat :: S.Unfinished(s.swap, i) ==> s.swap.slot == Some(i))
  }

  ghost predicate Inv(s: System) {
    A.Inv(s.gate) && S.Inv(s.swap) && Owned(s) && Attended(s)
  }
}
