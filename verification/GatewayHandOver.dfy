/**
 Who holds the lease of a request, told from its events alone, and what a request meets
 when it gets its lease.
 */
module GatewayHandOver {
  import opened Common
  import opened GatewaySpec
  import A = AdmissionSpec
  import S = SwapSpec
  import T = GatewayTheorems

  /** How far the answer to a request has come, by the events about it. */
  datatype Stage = Unanswered | Answered(streaming: bool) | HandedOver | Over

  function NextStage(st: Stage, e: Event, t: Ticket): Stage {
    match e
    case Reply(u, streaming) => if u == t then Answered(streaming) else st
    case Settle(u) => if u == t then (if st == Answered(true) then HandedOver else Over) else st
    case Drop(u) => if u == t then Over else st
    case EndStream(u) => if u == t then Over else st
    case _ => st
  }

  function StageAfter(st: Stage, es: seq<Event>, t: Ticket): Stage
    decreases |es|
  {
    if es == [] then st else StageAfter(NextStage(st, es[0], t), es[1..], t)
  }

  ghost predicate Fits(s: System, st: Stage, t: Ticket) {
    match st
    case Unanswered => t in s.phases ==> s.phases[t] != Returning(true) && s.phases[t] != Streaming
    case Answered(streaming) => At(s, t, Returning(streaming))
    case HandedOver => At(s, t, Streaming)
    case Over => At(s, t, Finished) && t in s.gate.log
  }

  /** The request an event is about; the swap tasks' own events are about none. */
  function About(s: System, e: Event): Option<Ticket> {
    match e
    case Arrive(_, _) => Some(s.gate.next)
    case Resume(t, _) => Some(t)
    case CancelWait(t) => Some(t)
    case Handle(t) => Some(t)
    case EnterSwap(_) => None
    case LeaveSwap(_, _) => None
    case Swapped(t) => Some(t)
    case Abandon(t) => Some(t)
    case Reply(t, _) => Some(t)
    case Settle(t) => Some(t)
    case Drop(t) => Some(t)
    case EndStream(t) => Some(t)
  }

  lemma OthersStay(s: System, e: Event, t: Ticket)
    requires Enabled(s, e) && About(s, e) != Some(t)
    ensures var s' := Step(s, e);
      && (t in s'.phases <==> t in s.phases) && (t in s.phases ==> s'.phases[t] == s.phases[t])
      && (t in s.calls ==> t in s'.calls)
  {
  }

  lemma LogStays(s: System, e: Event, t: Ticket)
    requires Inv(s) && Enabled(s, e) && At(s, t, Finished) && t in s.gate.log && About(s, e) != Some(t)
    ensures t in Step(s, e).gate.log
  {
    T.StepKeeps(s, e);
    assert Matches(s.gate, t, Finished, s.calls[t]);
    OthersStay(s, e, t);
    CallsStay(s, e, t);
    var s' := Step(s, e);
    assert Matches(s'.gate, t, s'.phases[t], s'.calls[t]);
  }

  lemma CallsStay(s: System, e: Event, t: Ticket)
    requires Enabled(s, e) && About(s, e) != Some(t) && t in s.calls
    ensures t in Step(s, e).calls && Step(s, e).calls[t] == s.calls[t]
  {
  }

  /** In the queue a request has no answer. */
  lemma QueuedIsAcquiring(s: System, t: Ticket)
    requires Owned(s) && t in s.phases && InQueue(s.gate, t)
    ensures s.phases[t] == Acquiring
  {
    assert Matches(s.gate, t, s.phases[t], s.calls[t]);
  }

  lemma GateEventFits(s: System, e: Event, st: Stage, t: Ticket)
    requires Inv(s) && Enabled(s, e) && Fits(s, st, t) && About(s, e) == Some(t)
    requires e.Arrive? || e.Resume? || e.CancelWait? || e.Handle?
    ensures Fits(Step(s, e), NextStage(st, e, t), t)
  {
    if e.Arrive? {
      assert t !in s.phases;
    } else {
      assert InQueue(s.gate, t);
      assert t in s.phases by {
        assert t in s.gate.unseen || t in s.gate.doomed || t in A.Tickets(s.gate.waiting);
      }
      QueuedIsAcquiring(s, t);
    }
  }

  lemma GiveBackFits(s: System, t: Ticket)
    requires Inv(s) && t in s.phases && !s.phases[t].Acquiring? && !s.phases[t].Finished?
    ensures t in s.calls && Fits(GiveBack(s, t), Over, t)
  {
    T.OwnerHolds(s, t);
    T.GiveBackMatches(s, t);
  }

  lemma HolderEventFits(s: System, e: Event, st: Stage, t: Ticket)
    requires Inv(s) && Enabled(s, e) && Fits(s, st, t) && About(s, e) == Some(t)
    requires e.Swapped? || e.Abandon? || e.Reply? || e.Settle? || e.Drop? || e.EndStream?
    ensures Fits(Step(s, e), NextStage(st, e, t), t)
  {
    T.OwnerHolds(s, t);
    if e.Drop? || e.EndStream? || (e.Settle? && s.phases[t] == Returning(false)) {
      GiveBackFits(s, t);
    }
  }

  lemma StepFits(s: System, e: Event, st: Stage, t: Ticket)
    requires Inv(s) && Enabled(s, e) && Fits(s, st, t)
    ensures Fits(Step(s, e), NextStage(st, e, t), t)
  {
    if st == Over {
      assert Matches(s.gate, t, Finished, s.calls[t]);
    }
    if About(s, e) != Some(t) {
      OthersStay(s, e, t);
      if st == Over {
        LogStays(s, e, t);
      }
    } else if e.Arrive? || e.Resume? || e.CancelWait? || e.Handle? {
      GateEventFits(s, e, st, t);
    } else {
      HolderEventFits(s, e, st, t);
    }
  }

  lemma {:induction false} RunFits(s: System, es: seq<Event>, st: Stage, t: Ticket)
    requires Inv(s) && Runs(s, es) && Fits(s, st, t)
    ensures Inv(After(s, es)) && Fits(After(s, es), StageAfter(st, es, t), t)
    decreases |es|
  {
    if es != [] {
      T.StepKeeps(s, es[0]);
      StepFits(s, es[0], st, t);
      RunFits(Step(s, es[0]), es[1..], NextStage(st, es[0], t), t);
    }
  }

  /** From the events alone, in every run.  Once a streaming answer has been settled the
      lease stays out, unreleased, until the stream ends, which it may at any time; before
      that it is the handler's, who can settle or drop it; an answer that does not stream
      is over when it is settled; and what is over has released its lease, once. */
  lemma HandOver(s0: System, es: seq<Event>, t: Ticket)
    requires T.Starts(s0) && Runs(s0, es)
    ensures var s, st := After(s0, es), StageAfter(Unanswered, es, t);
      && (st == HandedOver ==>
            t in s.gate.leases && t in s.calls && s.calls[t] == 0 && Enabled(s, EndStream(t)))
      && (st.Answered? ==>
            t in s.gate.leases && t in s.calls && s.calls[t] == 0 && Enabled(s, Settle(t)) && Enabled(s, Drop(t)))
      && (st == Over ==> t !in s.gate.leases && t in s.calls && s.calls[t] == 1)
  {
    T.StartInv(s0);
    RunFits(s0, es, Unanswered, t);
    var s := After(s0, es);
    if StageAfter(Unanswered, es, t) != Unanswered {
      assert Matches(s.gate, t, s.phases[t], s.calls[t]);
    }
    if StageAfter(Unanswered, es, t) == Over {
      T.ExactlyOnceRelease(s0, es, t);
    }
  }

  lemma {:induction false} StageConcat(st: Stage, a: seq<Event>, b: seq<Event>, t: Ticket)
    ensures StageAfter(st, a + b, t) == StageAfter(StageAfter(st, a, t), b, t)
    decreases |a|
  {
    if a == [] {
      assert a + b == b;
    } else {
      assert (a + b)[0] == a[0] && (a + b)[1..] == a[1..] + b;
      StageConcat(NextStage(st, a[0], t), a[1..], b, t);
    }
  }

  /** Events that settle, drop or end nothing of this request. */
  ghost predicate Silent(es: seq<Event>, t: Ticket) {
    forall e :: e in es ==> e != Settle(t) && e != Drop(t) && e != EndStream(t) && e != Reply(t, true) && e != Reply(t, false)
  }

  lemma {:induction false} StageSilent(st: Stage, es: seq<Event>, t: Ticket)
    requires Silent(es, t)
    ensures StageAfter(st, es, t) == st
    decreases |es|
  {
    if es != [] {
      assert es[0] in es && forall e :: e in es[1..] ==> e in es;
      StageSilent(NextStage(st, es[0], t), es[1..], t);
    }
  }

  /** Spelled out: a streaming answer, its hand-over, and anything else but its end. */
  lemma StreamHoldsLease(s0: System, before: seq<Event>, between: seq<Event>, since: seq<Event>, t: Ticket)
    requires T.Starts(s0) && Silent(between, t) && Silent(since, t)
    requires Runs(s0, before + [Reply(t, true)] + between + [Settle(t)] + since)
    ensures var s := After(s0, before + [Reply(t, true)] + between + [Settle(t)] + since);
      && t in s.gate.leases && t in s.calls && s.calls[t] == 0
      && Enabled(s, EndStream(t)) && t !in Step(s, EndStream(t)).gate.leases
  {
    var a, b := before + [Reply(t, true)], [Settle(t)];
    var es := a + between + b + since;
    StageConcat(Unanswered, before, [Reply(t, true)], t);
    StageConcat(Unanswered, a, between, t);
    StageConcat(Unanswered, a + between, b, t);
    StageConcat(Unanswered, a + between + b, since, t);
    var st0 := StageAfter(Unanswered, before, t);
    StageOne(st0, Reply(t, true), t);
    StageSilent(Answered(true), between, t);
    StageOne(Answered(true), Settle(t), t);
    StageSilent(HandedOver, since, t);
    HandOver(s0, es, t);
    Ends(s0, es, t);
  }

  lemma StageOne(st: Stage, e: Event, t: Ticket)
    ensures StageAfter(st, [e], t) == NextStage(st, e, t)
  {
    assert [e][1..] == [];
    assert StageAfter(NextStage(st, e, t), [], t) == NextStage(st, e, t);
  }

  lemma Ends(s0: System, es: seq<Event>, t: Ticket)
    requires T.Starts(s0) && Runs(s0, es) && Enabled(After(s0, es), EndStream(t))
    ensures t !in Step(After(s0, es), EndStream(t)).gate.leases
  {
    T.StartInv(s0);
    T.RunKeeps(s0, es);
    T.GiveBackMatches(After(s0, es), t);
    T.OwnerHolds(After(s0, es), t);
  }

  // ---------------------------------------------------------------- the swap decision

  /** A request that gets its lease, on arrival or when its grant reaches it, is served at
      once exactly if its profile is active, its container ready and no swap at work.
      Otherwise, with long polling, it waits for an unfinished task for its profile; and
      without, it is turned away. */
  ghost predicate Met(s: System, s': System, t: Ticket, p: Profile, ready: bool) {
    && t in s'.phases
    && (s'.phases[t] == Serving <==> s.swap.active == Some(p) && ready && s.swap.lock == None)
    && (s'.phases[t] == Serving ==> s'.swap == s.swap)
    && (s'.phases[t] != Serving && s.longPolling ==>
          && s'.phases[t].SwapWait? && S.Unfinished(s'.swap, s'.phases[t].task)
          && s'.swap.tasks[s'.phases[t].task].target == p)
    && (s'.phases[t] != Serving && !s.longPolling ==> s'.phases[t] == Returning(false))
  }

  lemma ArrivalMet(s: System, p: Profile, ready: bool)
    requires Inv(s)
    requires s.gate.waiting == [] && s.gate.active < s.gate.limit && (s.gate.active == 0 || s.gate.profile == Some(p))
    ensures Met(s, Step(s, Arrive(p, ready)), s.gate.next, p, ready)
  {
  }

  lemma ResumeMet(s: System, t: Ticket, ready: bool)
    requires Inv(s) && Enabled(s, Resume(t, ready))
    ensures Met(s, Step(s, Resume(t, ready)), t, s.gate.leases[t], ready)
  {
  }

  /** And a request that waited goes on as its swap ended, and is turned away if it gave up. */
  lemma SwapMet(s: System, t: Ticket)
    requires Waits(s, t)
    ensures Enabled(s, Swapped(t)) ==>
      (Step(s, Swapped(t)).phases[t] == Serving <==> s.swap.tasks[s.phases[t].task].phase == S.Done(true))
    ensures Enabled(s, Swapped(t)) && s.swap.tasks[s.phases[t].task].phase != S.Done(true) ==>
      Step(s, Swapped(t)).phases[t] == Returning(false)
    ensures Step(s, Abandon(t)).phases[t] == Returning(false) && s.phases[t].task in Step(s, Abandon(t)).orphans
  {
  }

  // ---------------------------------------------------------------- projections

  /** Every step of the whole is a step of the gate, or leaves it alone. */
  lemma GateProjects(s: System, e: Event) returns (f: Option<A.Event>)
    requires Inv(s) && Enabled(s, e)
    ensures f == None ==> Step(s, e).gate == s.gate
    ensures f.Some? ==> A.Enabled(s.gate, f.value) && Step(s, e).gate == A.Step(s.gate, f.value)
  {
    match e
    case Arrive(p, _) => f := Some(A.Arrive(p));
    case Resume(t, _) => f := Some(A.Deliver(t));
    case CancelWait(t) => f := Some(A.Cancel(t));
    case Handle(t) => f := Some(A.Handle(t));
    case Settle(t) =>
      T.OwnerHolds(s, t);
      assert Matches(s.gate, t, s.phases[t], s.calls[t]);
      f := if s.phases[t].streaming then None else Some(A.Release(t));
    case Drop(t) =>
      T.OwnerHolds(s, t);
      assert Matches(s.gate, t, s.phases[t], s.calls[t]);
      f := Some(A.Release(t));
    case EndStream(t) =>
      T.OwnerHolds(s, t);
      assert Matches(s.gate, t, s.phases[t], s.calls[t]);
      f := Some(A.Release(t));
    case _ => f := None;
  }

  /** ... and a step of the swap tasks, or leaves them alone. */
  lemma SwapProjects(s: System, e: Event) returns (f: Option<S.Event>)
    requires Inv(s) && Enabled(s, e)
    ensures f == None ==> Step(s, e).swap == s.swap
    ensures f.Some? ==> S.Enabled(s.swap, f.value) && Step(s, e).swap == S.Step(s.swap, f.value)
  {
    match e
    case Arrive(p, ready) =>
      f := if A.FastPath(s.gate, p) && S.NeedsSwap(s.swap, p, ready) then Some(S.Request(p, ready)) else None;
    case Resume(t, ready) =>
      var p := s.gate.leases[t];
      f := if S.NeedsSwap(s.swap, p, ready) then Some(S.Request(p, ready)) else None;
    case EnterSwap(i) => f := Some(S.Enter(i));
    case LeaveSwap(i, ok) => f := Some(S.Leave(i, ok));
    case _ => f := None;
  }

  // ---------------------------------------------------------------- what can happen

  /** Arrivals are always possible, and nobody is stuck: a queued request can be cancelled or
      be delivered its grant, and its handler can run once either has come; who waits for a
      swap can always give up, and goes on when the task is done; a served one can be
      answered in either way; an answer can be settled or dropped; a stream can end. */
  lemma NobodyStuck(s: System, t: Ticket, p: Profile, ready: bool)
    requires Inv(s) && t in s.phases
    ensures Enabled(s, Arrive(p, ready))
    ensures match s.phases[t]
      case Acquiring =>
        || (Enabled(s, CancelWait(t)) && t in A.Tickets(s.gate.waiting))
        || (Enabled(s, Resume(t, ready)) && Enabled(s, Handle(t)) && t in s.gate.leases)
        || (Enabled(s, Handle(t)) && t in s.gate.doomed)
      case SwapWait(i) =>
        && Enabled(s, Abandon(t)) && i < |s.swap.tasks|
        && (s.swap.tasks[i].phase.Done? <==> Enabled(s, Swapped(t)))
        && (s.swap.tasks[i].phase == S.Queued && s.swap.lock == None ==> Enabled(s, EnterSwap(i)))
        && (s.swap.tasks[i].phase == S.Working ==> Enabled(s, LeaveSwap(i, true)) && Enabled(s, LeaveSwap(i, false)))
      case Serving => Enabled(s, Reply(t, true)) && Enabled(s, Reply(t, false))
      case Returning(_) => Enabled(s, Settle(t)) && Enabled(s, Drop(t))
      case Streaming => Enabled(s, EndStream(t))
      case Finished => true
  {
    match s.phases[t]
    case Acquiring => QueuedNotStuck(s, t, ready);
    case SwapWait(i) => WaiterNotStuck(s, t, i);
    case _ =>
  }

  lemma QueuedNotStuck(s: System, t: Ticket, ready: bool)
    requires A.Inv(s.gate) && Owned(s) && t in s.phases && s.phases[t] == Acquiring
    ensures
      || (Enabled(s, CancelWait(t)) && t in A.Tickets(s.gate.waiting))
      || (Enabled(s, Resume(t, ready)) && Enabled(s, Handle(t)) && t in s.gate.leases)
      || (Enabled(s, Handle(t)) && t in s.gate.doomed)
  {
    assert Matches(s.gate, t, s.phases[t], s.calls[t]);
  }

  lemma WaiterNotStuck(s: System, t: Ticket, i: nat)
    requires S.Inv(s.swap) && Attended(s) && WaitsFor(s, t, i)
    ensures Enabled(s, Abandon(t)) && i < |s.swap.tasks|
    ensures s.swap.tasks[i].phase.Done? <==> Enabled(s, Swapped(t))
    ensures s.swap.tasks[i].phase == S.Queued && s.swap.lock == None ==> Enabled(s, EnterSwap(i))
    ensures s.swap.tasks[i].phase == S.Working ==> Enabled(s, LeaveSwap(i, true)) && Enabled(s, LeaveSwap(i, false))
  {
    assert Waits(s, t);
  }
}
