/** Who is served, and on which profile: gate, request lifecycle and swaps composed. */
module GatewayServing {
  import opened Common
  import opened GatewaySpec
  import A = AdmissionSpec
  import S = SwapSpec
  import T = GatewayTheorems

  /** The backend works for this request, or is about to stream to it. */
  predicate BeingServed(p: Phase) {
    p == Serving || p == Returning(true) || p == Streaming
  }

  /** The swap this request waited for has succeeded; it will be served next. */
  predicate WokenUp(s: System, p: Phase) {
    p.SwapWait? && p.task < |s.swap.tasks| && s.swap.tasks[p.task].phase == S.Done(true)
  }

  ghost predicate OnActive(s: System, t: Ticket) {
    t in s.gate.leases && s.swap.active == Some(s.gate.leases[t])
  }

  ghost predicate Served(s: System) {
    forall t :: t in s.phases && (BeingServed(s.phases[t]) || WokenUp(s, s.phases[t])) ==> OnActive(s, t)
  }

  /** The profile of an unfinished task is that of every lease. */
  lemma TargetOfLeases(s: System, i: nat, t: Ticket)
    requires Inv(s) && s.orphans == {} && S.Unfinished(s.swap, i) && t in s.gate.leases
    ensures s.swap.tasks[i].target == s.gate.leases[t]
  {
    var u :| WaitsFor(s, u, i);
    assert Waits(s, u);
    assert s.gate.profile == Some(s.gate.leases[u]) && s.gate.profile == Some(s.gate.leases[t]);
  }

  lemma HolderHeld(s: System, t: Ticket)
    requires Inv(s) && t in s.phases && !s.phases[t].Acquiring? && !s.phases[t].Finished?
    ensures Held(s.gate, t) && t < s.gate.next
  {
    assert Matches(s.gate, t, s.phases[t], s.calls[t]);
  }

  /** The swap decision: served at once only on its own profile. */
  lemma DecideServed(s: System, t: Ticket, p: Profile, ready: bool)
    requires S.Inv(s.swap) && s.longPolling
    requires t in s.gate.leases && s.gate.leases[t] == p
    requires forall u :: u in s.phases && u != t && (BeingServed(s.phases[u]) || WokenUp(s, s.phases[u])) ==> OnActive(s, u)
    requires forall u :: u in s.phases && u != t && s.phases[u].SwapWait? ==> s.phases[u].task < |s.swap.tasks|
    ensures Served(Decide(s, t, p, ready))
  {
  }

  /** Gate steps about ticket `t` leave the leases of the other holders out. */
  lemma GateServed(s: System, s': System, t: Ticket)
    requires Inv(s) && Served(s) && s'.swap == s.swap
    requires forall u :: u in s'.phases && u != t ==> u in s.phases && s'.phases[u] == s.phases[u]
    requires forall u :: u in s.phases && u != t ==> T.SamePlace(s.gate, s'.gate, u)
    requires t in s'.phases ==> !BeingServed(s'.phases[t]) && !s'.phases[t].SwapWait?
    ensures Served(s')
  {
    forall u | u in s'.phases && (BeingServed(s'.phases[u]) || WokenUp(s', s'.phases[u])) ensures OnActive(s', u) {
      HolderHeld(s, u);
    }
  }

  lemma ArriveServed(s: System, p: Profile, ready: bool)
    requires Inv(s) && Served(s) && s.longPolling
    ensures Served(Enter(s, p, ready))
  {
    var t := s.gate.next;
    var s1 := s.(gate := A.Acquire(s.gate, p), calls := s.calls[t := 0]);
    forall u | u in s.phases && u != t ensures T.SamePlace(s.gate, s1.gate, u) {
      T.AcquirePlaces(s.gate, p, u);
    }
    T.AcquirePlaces(s.gate, p, t);
    assert t !in s.phases;
    GateServed(s, s1, t);
    if A.FastPath(s.gate, p) {
      WaitersKnown(s);
      DecideServed(s1, t, p, ready);
    } else {
      GateServed(s, Enter(s, p, ready), t);
    }
  }

  lemma WaitersKnown(s: System)
    requires Attended(s)
    ensures forall u :: u in s.phases && s.phases[u].SwapWait? ==> s.phases[u].task < |s.swap.tasks|
  {
    forall u | u in s.phases && s.phases[u].SwapWait? ensures s.phases[u].task < |s.swap.tasks| {
      assert Waits(s, u);
    }
  }

  lemma ResumeServed(s: System, t: Ticket, ready: bool)
    requires Inv(s) && Served(s) && s.longPolling && Enabled(s, Resume(t, ready))
    ensures Served(Step(s, Resume(t, ready)))
  {
    WaitersKnown(s);
    DecideServed(s.(gate := A.Step(s.gate, A.Deliver(t))), t, s.gate.leases[t], ready);
  }

  lemma HandleServed(s: System, t: Ticket)
    requires Inv(s) && Served(s) && Enabled(s, Handle(t))
    ensures Served(Step(s, Handle(t)))
  {
    forall u | u in s.phases && u != t ensures T.SamePlace(s.gate, Step(s, Handle(t)).gate, u) {
      T.HandlePlaces(s.gate, t, u);
    }
    GateServed(s, Step(s, Handle(t)), t);
  }

  lemma GiveBackServed(s: System, t: Ticket)
    requires Inv(s) && Served(s) && t in s.phases && !s.phases[t].Acquiring? && !s.phases[t].Finished?
    ensures Served(GiveBack(s, t))
  {
    T.GiveBackApart(s, t);
    ApartServed(s, GiveBack(s, t), t);
  }

  lemma ApartServed(s: System, s': System, t: Ticket)
    requires Inv(s) && Served(s) && s'.swap == s.swap && T.Apart(s, s', t)
    requires s'.phases.Keys == s.phases.Keys && t in s'.phases && s'.phases[t].Finished?
    ensures Served(s')
  {
    GateServed(s, s', t);
  }

  /** A task that enters or leaves the mutex claims no profile but the leases' own. */
  lemma EnterSwapServed(s: System, i: nat)
    requires Inv(s) && Served(s) && Enabled(s, EnterSwap(i))
    ensures Served(Step(s, EnterSwap(i)))
  {
    var s' := Step(s, EnterSwap(i));
    forall t | t in s'.phases && (BeingServed(s'.phases[t]) || WokenUp(s', s'.phases[t])) ensures OnActive(s', t) {
      if WaitsFor(s, t, i) {
        assert Waits(s, t);
      }
    }
  }

  lemma LeaveSwapServed(s: System, i: nat, ok: bool)
    requires Inv(s) && Served(s) && s.orphans == {} && Enabled(s, LeaveSwap(i, ok))
    ensures Served(Step(s, LeaveSwap(i, ok)))
  {
    var s' := Step(s, LeaveSwap(i, ok));
    forall t | t in s'.phases && (BeingServed(s'.phases[t]) || WokenUp(s', s'.phases[t])) ensures OnActive(s', t) {
      HolderHeld(s, t);
      TargetOfLeases(s, i, t);
    }
  }

  /** Once a swap may only be awaited, every step keeps requests on the active profile. */
  lemma StepServed(s: System, e: Event)
    requires Inv(s) && Served(s) && s.longPolling && s.orphans == {}
    requires Enabled(s, e) && !e.Abandon?
    ensures Served(Step(s, e))
  {
    match e
    case Arrive(p, ready) => ArriveServed(s, p, ready);
    case Resume(t, ready) => ResumeServed(s, t, ready);
    case CancelWait(t) =>
    case Handle(t) => HandleServed(s, t);
    case EnterSwap(i) => EnterSwapServed(s, i);
    case LeaveSwap(i, ok) => LeaveSwapServed(s, i, ok);
    case Swapped(t) =>
    case Abandon(t) =>
    case Reply(t, streaming) =>
    case Settle(t) =>
      if !s.phases[t].streaming {
        GiveBackServed(s, t);
      }
    case Drop(t) => GiveBackServed(s, t);
    case EndStream(t) => GiveBackServed(s, t);
  }

  ghost predicate Calm(s: System) {
    Inv(s) && Served(s) && s.longPolling && s.orphans == {}
  }

  lemma NoNewOrphan(s: System, e: Event)
    requires s.longPolling && s.orphans == {} && Enabled(s, e) && !e.Abandon?
    ensures Step(s, e).longPolling && Step(s, e).orphans == {}
  {
  }

  lemma StepCalm(s: System, e: Event)
    requires Calm(s) && Enabled(s, e) && !e.Abandon?
    ensures Calm(Step(s, e))
  {
    StepServed(s, e);
    T.StepKeeps(s, e);
    NoNewOrphan(s, e);
  }

  lemma {:induction false} RunServed(s: System, es: seq<Event>)
    requires Calm(s) && Runs(s, es) && T.NobodyAbandons(es)
    ensures Calm(After(s, es))
    decreases |es|
  {
    if es != [] {
      assert es[0] in es;
      StepCalm(s, es[0]);
      RunServed(Step(s, es[0]), es[1..]);
    }
  }

  /** With long polling on and no request abandoning its swap wait: while the backend works
      for a request or streams to it, the profile it was admitted for is the active one. */
  lemma ServedOnActiveProfile(s0: System, es: seq<Event>, t: Ticket)
    requires T.Starts(s0) && s0.longPolling && Runs(s0, es) && T.NobodyAbandons(es)
    requires t in After(s0, es).phases && BeingServed(After(s0, es).phases[t])
    ensures OnActive(After(s0, es), t)
  {
    T.StartInv(s0);
    RunServed(s0, es);
  }
}
