/**
 What gate, request handlers and swap tasks guarantee together: each lease is given
 back exactly once, and lifecycle work never runs beside a request of another profile
 unless a request abandoned its swap.
 */
module GatewayTheorems {
  import opened Common
  import opened GatewaySpec
  import A = AdmissionSpec
  import T = AdmissionTheorems
  import S = SwapSpec

  // ---------------------------------------------------------------- places in the gate

  /** Whether `t` is queued, held or out, and its log entry once out, are unchanged. */
  ghost predicate SamePlace(g: A.Gate, g': A.Gate, t: Ticket) {
    && InQueue(g', t) == InQueue(g, t)
    && Held(g', t) == Held(g, t)
    && (Held(g, t) ==> g'.leases[t] == g.leases[t])
    && (!InQueue(g, t) ==> (t in g'.log <==> t in g.log))
  }

  lemma PromoteOnePlaces(g: A.Gate, t: Ticket)
    requires T.Core(g) && g.waiting != [] && g.waiting[0].ticket !in g.doomed
    ensures SamePlace(g, T.PromoteOne(g), t)
  {
    T.TicketsPop(g.waiting);
  }

  lemma {:induction false} PromotePlaces(g: A.Gate, t: Ticket)
    requires T.Core(g)
    ensures SamePlace(g, A.Promote(g), t)
    decreases |g.waiting|
  {
    if g.waiting != [] && g.active < g.limit {
      T.TicketsPop(g.waiting);
      if g.waiting[0].ticket in g.doomed {
        var rest := g.(waiting := g.waiting[1..]);
        T.PromoteKeeps(g);
        PromotePlaces(rest, t);
      } else if g.active == 0 || g.profile == Some(g.waiting[0].profile) {
        T.PromoteOneKeeps(g);
        PromoteOnePlaces(g, t);
        PromotePlaces(T.PromoteOne(g), t);
      }
    }
  }

  lemma ReleasePlaces(g: A.Gate, t: Ticket, u: Ticket)
    requires T.Core(g) && Held(g, t) && !InQueue(g, t)
    ensures var g' := A.ReleaseLease(g, t);
      && (u != t ==> SamePlace(g, g', u))
      && !Held(g', t) && !InQueue(g', t) && t in g'.log
  {
    T.ReturnKeeps(g, t);
    PromotePlaces(A.Return(g, t), u);
    PromotePlaces(A.Return(g, t), t);
  }

  lemma ReleaseOthers(g: A.Gate, t: Ticket)
    requires T.Core(g) && Held(g, t) && !InQueue(g, t)
    ensures forall u :: u != t ==> SamePlace(g, A.ReleaseLease(g, t), u)
  {
    forall u | u != t ensures SamePlace(g, A.ReleaseLease(g, t), u) {
      ReleasePlaces(g, t, u);
    }
  }

  lemma ForgetPlaces(g: A.Gate, t: Ticket, u: Ticket)
    requires T.Core(g) && t !in g.unseen
    ensures u != t ==> SamePlace(g, A.Forget(g, t), u)
    ensures !InQueue(A.Forget(g, t), t)
  {
    T.WithoutMembers(g.waiting, t);
  }

  lemma RacedPlaces(g: A.Gate, t: Ticket, u: Ticket)
    requires T.Core(g) && t in g.unseen
    ensures var g' := A.RunHandler(g, t);
      && (u != t ==> SamePlace(g, g', u))
      && !Held(g', t) && !InQueue(g', t) && t in g'.log
  {
    var g0 := g.(unseen := g.unseen - {t});
    T.DeliverKeeps(g, t);
    ReleasePlaces(g0, t, u);
    T.RacedHandler(g, t);
  }

  lemma HandlePlaces(g: A.Gate, t: Ticket, u: Ticket)
    requires T.Core(g) && A.Enabled(g, A.Handle(t))
    ensures var g' := A.RunHandler(g, t);
      && (u != t ==> SamePlace(g, g', u))
      && !Held(g', t) && !InQueue(g', t) && (t in g'.log <==> t in g.unseen)
  {
    if t in g.unseen {
      RacedPlaces(g, t, u);
    } else {
      T.EntryForgotten(g, t);
      ForgetPlaces(g, t, u);
      PromotePlaces(A.Forget(g, t), u);
      PromotePlaces(A.Forget(g, t), t);
    }
  }

  lemma AcquirePlaces(g: A.Gate, p: Profile, u: Ticket)
    requires A.Inv(g) && u <= g.next
    ensures var g' := A.Acquire(g, p);
      && (u < g.next ==> SamePlace(g, g', u))
      && (A.FastPath(g, p) ==> Held(g', g.next) && !InQueue(g', g.next) && g.next in g'.log && g'.leases[g.next] == p)
      && (!A.FastPath(g, p) ==> !Held(g', g.next) && g.next !in g'.log)
      && (!A.FastPath(g, p) ==> (InQueue(g', g.next) <==> |g.waiting| < g.maxWaiting))
  {
    T.TicketsPush(g.waiting, A.Entry(g.next, p));
  }

  // ---------------------------------------------------------------- lease ownership

  /** A gate step about ticket `t` leaves every other request as it was. */
  lemma OthersOwned(s: System, s': System, t: Ticket)
    requires Owned(s)
    requires s'.gate.next == s.gate.next && t < s.gate.next
    requires forall u :: u in s'.phases <==> u in s.phases
    requires forall u :: u in s.phases ==> u in s'.calls
    requires forall u :: u in s.phases && u != t ==>
      s'.phases[u] == s.phases[u] && s'.calls[u] == s.calls[u] && SamePlace(s.gate, s'.gate, u) &&
      (u in s'.gate.turned <==> u in s.gate.turned)
    requires Matches(s'.gate, t, s'.phases[t], s'.calls[t])
    ensures Owned(s')
  {
  }

  lemma PhaseOwned(s: System, t: Ticket, p: Phase)
    requires Owned(s) && t in s.phases && t in s.gate.leases
    requires !s.phases[t].Acquiring? && !s.phases[t].Finished? && !p.Acquiring? && !p.Finished?
    ensures Owned(WithPhase(s, t, p))
  {
  }

  lemma DecideOwned(s: System, t: Ticket, p: Profile, ready: bool)
    requires s.gate.next > t && t in s.calls
    requires Owned(WithPhase(s, t, Serving))
    ensures Owned(Decide(s, t, p, ready))
  {
    var d := Decide(s, t, p, ready);
    var s1 := WithPhase(s, t, Serving);
    assert d.gate == s1.gate && d.calls == s1.calls;
    assert forall u :: u in d.phases <==> u in s1.phases;
    forall u | u in d.phases ensures Matches(d.gate, u, d.phases[u], d.calls[u]) {
      assert Matches(s1.gate, u, s1.phases[u], s1.calls[u]);
    }
  }

  /** The phase of a newcomer when its first stretch ends, a swap decision aside. */
  function FirstPhase(g: A.Gate, p: Profile): Phase {
    if A.FastPath(g, p) then Serving else if |g.waiting| >= g.maxWaiting then Finished else Acquiring
  }

  lemma NewcomerMatches(g: A.Gate, p: Profile)
    requires A.Inv(g)
    ensures Matches(A.Acquire(g, p), g.next, FirstPhase(g, p), 0)
  {
    AcquirePlaces(g, p, g.next);
  }

  lemma OldcomerMatches(g: A.Gate, p: Profile, u: Ticket, phase: Phase, calls: nat)
    requires A.Inv(g) && u < g.next && Matches(g, u, phase, calls)
    ensures Matches(A.Acquire(g, p), u, phase, calls)
  {
    AcquirePlaces(g, p, u);
  }

  lemma NewcomerOwned(s: System, g': A.Gate, phase: Phase)
    requires Owned(s) && g'.next == s.gate.next + 1
    requires Matches(g', s.gate.next, phase, 0)
    requires forall u :: u in s.phases ==> Matches(g', u, s.phases[u], s.calls[u])
    ensures Owned(WithPhase(s.(gate := g', calls := s.calls[s.gate.next := 0]), s.gate.next, phase))
  {
  }

  lemma EnterOwned(s: System, p: Profile, ready: bool)
    requires A.Inv(s.gate) && Owned(s)
    ensures Owned(Enter(s, p, ready))
  {
    var g' := A.Acquire(s.gate, p);
    NewcomerMatches(s.gate, p);
    forall u | u in s.phases ensures Matches(g', u, s.phases[u], s.calls[u]) {
      OldcomerMatches(s.gate, p, u, s.phases[u], s.calls[u]);
    }
    NewcomerOwned(s, g', FirstPhase(s.gate, p));
    if A.FastPath(s.gate, p) {
      DecideOwned(s.(gate := g', calls := s.calls[s.gate.next := 0]), s.gate.next, p, ready);
    }
  }

  lemma ResumeOwned(s: System, t: Ticket, ready: bool)
    requires A.Inv(s.gate) && Owned(s) && t in s.gate.unseen
    ensures Owned(Decide(s.(gate := A.Step(s.gate, A.Deliver(t))), t, s.gate.leases[t], ready))
  {
    var s' := s.(gate := A.Step(s.gate, A.Deliver(t)));
    assert Matches(s.gate, t, s.phases[t], s.calls[t]);
    var s1 := WithPhase(s', t, Serving);
    forall u | u in s1.phases ensures Matches(s1.gate, u, s1.phases[u], s1.calls[u]) {
      assert Matches(s.gate, u, s.phases[u], s.calls[u]);
    }
    DecideOwned(s', t, s.gate.leases[t], ready);
  }

  lemma CancelOwned(s: System, t: Ticket)
    requires A.Inv(s.gate) && Owned(s) && A.Live(s.gate, t)
    ensures Owned(s.(gate := A.CancelFuture(s.gate, t)))
  {
    assert t !in s.gate.log && t < s.gate.next;
    assert Matches(s.gate, t, s.phases[t], s.calls[t]);
    OthersOwned(s, s.(gate := A.CancelFuture(s.gate, t)), t);
  }

  lemma HandleOwned(s: System, t: Ticket)
    requires A.Inv(s.gate) && Owned(s) && Enabled(s, Handle(t))
    ensures Owned(Step(s, Handle(t)))
  {
    var s' := Step(s, Handle(t));
    assert t < s.gate.next;
    assert Matches(s.gate, t, s.phases[t], s.calls[t]);
    T.HandleFixed(s.gate, t);
    HandlePlaces(s.gate, t, t);
    forall u | u in s.phases && u != t
      ensures s'.calls[u] == s.calls[u] && SamePlace(s.gate, s'.gate, u)
    {
      HandlePlaces(s.gate, t, u);
    }
    OthersOwned(s, s', t);
  }

  /** The owner's lease is out, and nobody has released it. */
  lemma OwnerHolds(s: System, t: Ticket)
    requires Owned(s) && t in s.phases && !s.phases[t].Acquiring? && !s.phases[t].Finished?
    ensures t in s.calls && Held(s.gate, t) && !InQueue(s.gate, t) && s.calls[t] == 0 && t < s.gate.next
  {
    assert Matches(s.gate, t, s.phases[t], s.calls[t]);
  }

  lemma GiveBackGate(s: System, t: Ticket)
    requires A.Inv(s.gate) && Owned(s) && t in s.phases && !s.phases[t].Acquiring? && !s.phases[t].Finished?
    ensures A.Inv(GiveBack(s, t).gate)
  {
    OwnerHolds(s, t);
    T.StepKeeps(s.gate, A.Release(t));
  }

  lemma GiveBackFixed(s: System, t: Ticket)
    requires t in s.calls
    ensures GiveBack(s, t).gate.next == s.gate.next && GiveBack(s, t).gate.turned == s.gate.turned
  {
    T.PromoteFixed(A.Return(s.gate, t));
  }

  /** Every other request is where it was. */
  ghost predicate Apart(s: System, s': System, t: Ticket) {
    forall u :: u in s.phases && u != t ==>
      && u in s'.phases && s'.phases[u] == s.phases[u]
      && u in s.calls && u in s'.calls && s'.calls[u] == s.calls[u]
      && SamePlace(s.gate, s'.gate, u) && (u in s'.gate.turned <==> u in s.gate.turned)
  }

  lemma GiveBackApart(s: System, t: Ticket)
    requires A.Inv(s.gate) && Owned(s) && t in s.phases && !s.phases[t].Acquiring? && !s.phases[t].Finished?
    ensures Apart(s, GiveBack(s, t), t)
  {
    OwnerHolds(s, t);
    GiveBackFixed(s, t);
    ReleaseOthers(s.gate, t);
  }

  lemma GiveBackMatches(s: System, t: Ticket)
    requires A.Inv(s.gate) && Owned(s) && t in s.phases && !s.phases[t].Acquiring? && !s.phases[t].Finished?
    ensures Matches(GiveBack(s, t).gate, t, Finished, 1)
  {
    OwnerHolds(s, t);
    ReleasePlaces(s.gate, t, t);
  }

  /** The lease that handler or response gives back is out: this call is its first. */
  lemma GiveBackOwned(s: System, t: Ticket)
    requires A.Inv(s.gate) && Owned(s) && t in s.phases && !s.phases[t].Acquiring? && !s.phases[t].Finished?
    ensures Owned(GiveBack(s, t))
  {
    OwnerHolds(s, t);
    GiveBackFixed(s, t);
    GiveBackMatches(s, t);
    GiveBackApart(s, t);
    var s' := GiveBack(s, t);
    assert s'.phases.Keys == s.phases.Keys && s'.phases[t] == Finished && s'.calls[t] == 1;
    ApartOwned(s, s', t);
  }

  lemma ApartOwned(s: System, s': System, t: Ticket)
    requires Owned(s) && Apart(s, s', t) && t in s.phases
    requires s'.gate.next == s.gate.next && s'.phases.Keys == s.phases.Keys && t in s'.calls
    requires Matches(s'.gate, t, s'.phases[t], s'.calls[t])
    ensures Owned(s')
  {
    OthersOwned(s, s', t);
  }

  // ---------------------------------------------------------------- swap waits

  /** A request of the gate's profile creates a task only when none is unfinished. */
  lemma CreatesAlone(s: System, t: Ticket, p: Profile, j: nat)
    requires S.Inv(s.swap) && A.Safe(s.gate) && Attended(s) && s.orphans == {}
    requires t in s.gate.leases && s.gate.leases[t] == p
    requires S.Unfinished(s.swap, j)
    ensures S.Reuses(s.swap, p)
  {
    var u :| WaitsFor(s, u, j);
    assert Waits(s, u);
    assert s.gate.profile == Some(s.gate.leases[u]) && s.gate.profile == Some(p);
  }

  lemma DecideWaiters(s: System, t: Ticket, p: Profile, ready: bool)
    requires S.Inv(s.swap) && Attended(s) && !Waits(s, t)
    ensures var s' := Decide(s, t, p, ready);
      forall i: nat :: S.Unfinished(s'.swap, i) ==> i in s'.orphans || exists u :: WaitsFor(s', u, i)
  {
    var s' := Decide(s, t, p, ready);
    forall i: nat | S.Unfinished(s'.swap, i)
      ensures i in s'.orphans || exists u :: WaitsFor(s', u, i)
    {
      if S.Unfinished(s.swap, i) && i !in s.orphans {
        var u :| WaitsFor(s, u, i);
        assert WaitsFor(s', u, i);
      } else if i !in s'.orphans {
        assert WaitsFor(s', t, i);
      }
    }
  }

  lemma DecideAttended(s: System, t: Ticket, p: Profile, ready: bool)
    requires S.Inv(s.swap) && A.Safe(s.gate) && Attended(s) && !Waits(s, t)
    requires t in s.gate.leases && s.gate.leases[t] == p
    ensures Attended(Decide(s, t, p, ready))
  {
    var s' := Decide(s, t, p, ready);
    DecideWaiters(s, t, p, ready);
    if s'.orphans == {} && S.NeedsSwap(s.swap, p, ready) && !S.Reuses(s.swap, p) {
      forall i: nat | S.Unfinished(s'.swap, i) ensures s'.swap.slot == Some(i) {
        if S.Unfinished(s.swap, i) {
          CreatesAlone(s, t, p, i);
        }
      }
    }
  }

  lemma GateAttended(s: System, g': A.Gate)
    requires Attended(s)
    requires forall t :: Waits(s, t) && t in s.gate.leases ==> t in g'.leases && g'.leases[t] == s.gate.leases[t]
    ensures Attended(s.(gate := g'))
  {
    var s' := s.(gate := g');
    forall i: nat | S.Unfinished(s'.swap, i)
      ensures i in s'.orphans || exists u :: WaitsFor(s', u, i)
    {
      if i !in s.orphans {
        var u :| WaitsFor(s, u, i);
        assert WaitsFor(s', u, i);
      }
    }
  }

  /** A request moves on: it was not waiting, or its task is done, or it is recorded. */
  lemma PhaseAttended(s: System, t: Ticket, p: Phase, orphans: set<nat>)
    requires Attended(s) && !p.SwapWait? && s.orphans <= orphans
    requires Waits(s, t) ==> !S.Unfinished(s.swap, s.phases[t].task) || s.phases[t].task in orphans
    ensures Attended(WithPhase(s, t, p).(orphans := orphans))
  {
    var s' := WithPhase(s, t, p).(orphans := orphans);
    forall i: nat | S.Unfinished(s'.swap, i)
      ensures i in s'.orphans || exists u :: WaitsFor(s', u, i)
    {
      if i !in orphans {
        var u :| WaitsFor(s, u, i);
        assert Waits(s, u);
        assert WaitsFor(s', u, i);
      }
    }
  }

  lemma CallsAttended(s: System, calls: map<Ticket, nat>)
    requires Attended(s)
    ensures Attended(s.(calls := calls))
  {
    GateAttended(s, s.gate);
    var s' := s.(calls := calls);
    forall i: nat | S.Unfinished(s'.swap, i)
      ensures i in s'.orphans || exists u :: WaitsFor(s', u, i)
    {
      if i !in s.orphans {
        var u :| WaitsFor(s, u, i);
        assert WaitsFor(s', u, i);
      }
    }
  }

  /** Tasks only move towards Done, and only the one that ends may free the slot. */
  ghost predicate TaskMoves(w: S.Swap, w': S.Swap, i: nat) {
    && |w'.tasks| == |w.tasks|
    && (forall j :: 0 <= j < |w.tasks| ==> w'.tasks[j].target == w.tasks[j].target)
    && (forall j: nat :: S.Unfinished(w', j) ==> S.Unfinished(w, j))
    && (w'.slot == w.slot || (w.slot == Some(i) && !S.Unfinished(w', i)))
  }

  lemma TaskAttended(s: System, w': S.Swap, i: nat)
    requires Attended(s) && TaskMoves(s.swap, w', i)
    ensures Attended(s.(swap := w'))
  {
    var s' := s.(swap := w');
    forall j: nat | S.Unfinished(w', j)
      ensures j in s'.orphans || exists u :: WaitsFor(s', u, j)
    {
      if j !in s.orphans {
        var u :| WaitsFor(s, u, j);
        assert WaitsFor(s', u, j);
      }
    }
  }

  lemma EnterAttended(s: System, p: Profile, ready: bool)
    requires Inv(s)
    ensures Attended(Enter(s, p, ready))
  {
    var t := s.gate.next;
    var g' := A.Acquire(s.gate, p);
    T.AcquireKeeps(s.gate, p);
    forall u | Waits(s, u) && u in s.gate.leases ensures u in g'.leases && g'.leases[u] == s.gate.leases[u] {
      AcquirePlaces(s.gate, p, u);
    }
    GateAttended(s, g');
    var s1 := s.(gate := g', calls := s.calls[t := 0]);
    CallsAttended(s.(gate := g'), s1.calls);
    AcquirePlaces(s.gate, p, t);
    if A.FastPath(s.gate, p) {
      DecideAttended(s1, t, p, ready);
    } else {
      PhaseAttended(s1, t, FirstPhase(s.gate, p), s1.orphans);
    }
  }

  lemma ResumeAttended(s: System, t: Ticket, ready: bool)
    requires Inv(s) && t in s.gate.unseen
    ensures Attended(Step(s, Resume(t, ready)))
  {
    var g' := A.Step(s.gate, A.Deliver(t));
    GateAttended(s, g');
    assert Matches(s.gate, t, s.phases[t], s.calls[t]);
    DecideAttended(s.(gate := g'), t, s.gate.leases[t], ready);
  }

  lemma HandleAttended(s: System, t: Ticket)
    requires Inv(s) && Enabled(s, Handle(t))
    ensures Attended(Step(s, Handle(t)))
  {
    var g' := A.RunHandler(s.gate, t);
    assert Matches(s.gate, t, s.phases[t], s.calls[t]);
    forall u | Waits(s, u) && u in s.gate.leases ensures u in g'.leases && g'.leases[u] == s.gate.leases[u] {
      assert Matches(s.gate, u, s.phases[u], s.calls[u]);
      HandlePlaces(s.gate, t, u);
    }
    GateAttended(s, g');
    var s1 := s.(gate := g');
    var s' := Step(s, Handle(t));
    CallsAttended(s1, s'.calls);
    PhaseAttended(s1.(calls := s'.calls), t, Finished, s1.orphans);
  }

  lemma GiveBackAttended(s: System, t: Ticket)
    requires Inv(s) && t in s.phases && !s.phases[t].Acquiring? && !s.phases[t].Finished? && !Waits(s, t)
    ensures Attended(GiveBack(s, t))
  {
    var s' := GiveBack(s, t);
    GiveBackGate(s, t);
    forall u | Waits(s, u) && u in s.gate.leases ensures u in s'.gate.leases && s'.gate.leases[u] == s.gate.leases[u] {
      assert Matches(s.gate, u, s.phases[u], s.calls[u]);
      ReleasePlaces(s.gate, t, u);
    }
    GateAttended(s, s'.gate);
    CallsAttended(s.(gate := s'.gate), s'.calls);
    PhaseAttended(s.(gate := s'.gate, calls := s'.calls), t, Finished, s.orphans);
  }

  lemma DecideSwap(s: System, t: Ticket, p: Profile, ready: bool)
    requires S.Inv(s.swap)
    ensures S.Inv(Decide(s, t, p, ready).swap) && Decide(s, t, p, ready).gate == s.gate
  {
    if S.NeedsSwap(s.swap, p, ready) {
      S.StepKeeps(s.swap, S.Request(p, ready));
    }
  }

  lemma ArriveKeeps(s: System, p: Profile, ready: bool)
    requires Inv(s)
    ensures Inv(Enter(s, p, ready))
  {
    T.AcquireKeeps(s.gate, p);
    EnterOwned(s, p, ready);
    EnterAttended(s, p, ready);
    DecideSwap(s.(gate := A.Acquire(s.gate, p), calls := s.calls[s.gate.next := 0]), s.gate.next, p, ready);
  }

  lemma ResumeKeeps(s: System, t: Ticket, ready: bool)
    requires Inv(s) && Enabled(s, Resume(t, ready))
    ensures Inv(Step(s, Resume(t, ready)))
  {
    T.StepKeeps(s.gate, A.Deliver(t));
    ResumeOwned(s, t, ready);
    ResumeAttended(s, t, ready);
    DecideSwap(s.(gate := A.Step(s.gate, A.Deliver(t))), t, s.gate.leases[t], ready);
  }

  lemma CancelKeeps(s: System, t: Ticket)
    requires Inv(s) && A.Live(s.gate, t)
    ensures Inv(s.(gate := A.CancelFuture(s.gate, t)))
  {
    T.StepKeeps(s.gate, A.Cancel(t));
    CancelOwned(s, t);
    GateAttended(s, A.CancelFuture(s.gate, t));
  }

  lemma HandleKeeps(s: System, t: Ticket)
    requires Inv(s) && Enabled(s, Handle(t))
    ensures Inv(Step(s, Handle(t)))
  {
    T.StepKeeps(s.gate, A.Handle(t));
    HandleOwned(s, t);
    HandleAttended(s, t);
  }

  lemma LockMoves(w: S.Swap, i: nat)
    requires S.Inv(w) && S.Enabled(w, S.Enter(i))
    ensures TaskMoves(w, S.EnterLock(w, i), i)
  {
  }

  lemma UnlockMoves(w: S.Swap, i: nat, ok: bool)
    requires S.Inv(w) && S.Enabled(w, S.Leave(i, ok))
    ensures TaskMoves(w, S.LeaveLock(w, i, ok), i)
  {
  }

  /** Events of swap tasks. */
  lemma SwapMoveKeeps(s: System, w': S.Swap, i: nat)
    requires Inv(s) && S.Inv(w') && TaskMoves(s.swap, w', i)
    ensures Inv(s.(swap := w'))
  {
    TaskAttended(s, w', i);
    var s' := s.(swap := w');
    assert s'.gate == s.gate && s'.phases == s.phases && s'.calls == s.calls;
  }

  /** Events of a request that holds its lease. */
  lemma HolderStepKeeps(s: System, e: Event)
    requires Inv(s) && Enabled(s, e)
    requires e.Swapped? || e.Abandon? || e.Reply? || e.Settle? || e.Drop? || e.EndStream?
    ensures Inv(Step(s, e))
  {
    var t := e.ticket;
    assert Matches(s.gate, t, s.phases[t], s.calls[t]);
    var s' := Step(s, e);
    if s'.phases[t].Finished? {
      FinishKeeps(s, t);
    } else {
      MoveKeeps(s, t, s'.phases[t], s'.orphans);
    }
  }

  lemma FinishKeeps(s: System, t: Ticket)
    requires Inv(s) && t in s.phases && !s.phases[t].Acquiring? && !s.phases[t].Finished? && !Waits(s, t)
    ensures Inv(GiveBack(s, t))
  {
    GiveBackGate(s, t);
    GiveBackOwned(s, t);
    GiveBackAttended(s, t);
  }

  lemma MoveKeeps(s: System, t: Ticket, p: Phase, orphans: set<nat>)
    requires Inv(s) && t in s.phases && t in s.gate.leases
    requires !s.phases[t].Acquiring? && !s.phases[t].Finished? && !p.Acquiring? && !p.Finished? && !p.SwapWait?
    requires s.orphans <= orphans
    requires Waits(s, t) ==> !S.Unfinished(s.swap, s.phases[t].task) || s.phases[t].task in orphans
    ensures Inv(WithPhase(s, t, p).(orphans := orphans))
  {
    PhaseOwned(s, t, p);
    PhaseAttended(s, t, p, orphans);
  }

  /** Every event keeps gate, swap tasks, lease ownership and swap waits in order. */
  lemma StepKeeps(s: System, e: Event)
    requires Inv(s) && Enabled(s, e)
    ensures Inv(Step(s, e))
  {
    match e {
      case Arrive(p, ready) => ArriveKeeps(s, p, ready);
      case Resume(t, ready) => ResumeKeeps(s, t, ready);
      case CancelWait(t) => CancelKeeps(s, t);
      case Handle(t) => HandleKeeps(s, t);
      case EnterSwap(i) =>
        S.StepKeeps(s.swap, S.Enter(i));
        LockMoves(s.swap, i);
        SwapMoveKeeps(s, S.EnterLock(s.swap, i), i);
      case LeaveSwap(i, ok) =>
        S.StepKeeps(s.swap, S.Leave(i, ok));
        UnlockMoves(s.swap, i, ok);
        SwapMoveKeeps(s, S.LeaveLock(s.swap, i, ok), i);
      case _ => HolderStepKeeps(s, e);
    }
  }

  lemma {:induction false} RunKeeps(s: System, es: seq<Event>)
    requires Inv(s) && Runs(s, es)
    ensures Inv(After(s, es))
    decreases |es|
  {
    if es != [] {
      StepKeeps(s, es[0]);
      RunKeeps(Step(s, es[0]), es[1..]);
    }
  }

  // ---------------------------------------------------------------- theorems

  ghost predicate Starts(s: System) {
    exists limit, maxWaiting, longPolling, adopted ::
      1 <= limit && 0 <= maxWaiting && s == Initial(limit, maxWaiting, longPolling, adopted)
  }

  lemma StartInv(s: System)
    requires Starts(s)
    ensures Inv(s)
  {
    assert A.Tickets(s.gate.waiting) == {};
  }

  /** Exactly-once release, in every run: a lease that is out has one owner (the future
      its task has yet to see, the handler, or the streaming response); release has
      been called once for every lease that came back and never for one that is out;
      a finished request owns none. */
  lemma ExactlyOnceRelease(s0: System, es: seq<Event>, t: Ticket)
    requires Starts(s0) && Runs(s0, es) && t in After(s0, es).phases
    ensures var s := After(s0, es);
      && t in s.calls && s.calls[t] <= 1
      && (t in s.gate.leases <==>
            t in s.gate.unseen || (!s.phases[t].Acquiring? && !s.phases[t].Finished?))
      && (s.phases[t].Finished? ==> (s.calls[t] == 1 <==> t in s.gate.log))
      && (t in s.gate.leases ==> s.calls[t] == 0)
  {
    StartInv(s0);
    RunKeeps(s0, es);
    var s := After(s0, es);
    assert Matches(s.gate, t, s.phases[t], s.calls[t]);
  }

  /** When every request has finished, every slot is back and every lease was released. */
  lemma NoLeak(s0: System, es: seq<Event>)
    requires Starts(s0) && Runs(s0, es)
    requires forall t :: t in After(s0, es).phases ==> After(s0, es).phases[t].Finished?
    ensures var s := After(s0, es);
      s.gate.active == 0 && s.gate.waiting == [] && forall t :: t in s.gate.log ==> t in s.calls && s.calls[t] == 1
  {
    StartInv(s0);
    RunKeeps(s0, es);
    var s := After(s0, es);
    forall t | t in s.gate.log || t in s.gate.leases || t in A.Tickets(s.gate.waiting)
      ensures t in s.phases && Matches(s.gate, t, s.phases[t], s.calls[t])
    {
    }
    assert s.gate.leases.Keys == {};
    assert A.Tickets(s.gate.waiting) == {};
    NobodyQueued(s.gate.waiting);
  }

  lemma NobodyQueued(ws: seq<A.Entry>)
    ensures A.Tickets(ws) == {} ==> ws == []
  {
    if ws != [] {
      assert ws[0].ticket in A.Tickets(ws);
    }
  }

  /** With nothing assumed about the requests: an unfinished swap task loads the
      profile of every lease that is out, or some request abandoned it. */
  lemma UnfinishedSwapMatches(s0: System, es: seq<Event>, i: nat)
    requires Starts(s0) && Runs(s0, es) && S.Unfinished(After(s0, es).swap, i)
    ensures var s := After(s0, es);
      i in s.orphans ||
      (s.gate.profile == Some(s.swap.tasks[i].target) &&
       forall t :: t in s.gate.leases ==> s.gate.leases[t] == s.swap.tasks[i].target)
  {
    StartInv(s0);
    RunKeeps(s0, es);
    var s := After(s0, es);
    if i !in s.orphans {
      var u :| WaitsFor(s, u, i);
      assert Waits(s, u);
    }
  }

  ghost predicate NobodyAbandons(es: seq<Event>) {
    forall e :: e in es ==> !e.Abandon?
  }

  lemma {:induction false} OrphansFromAbandon(s: System, es: seq<Event>)
    requires Runs(s, es) && s.longPolling && s.orphans == {} && NobodyAbandons(es)
    ensures After(s, es).orphans == {}
    decreases |es|
  {
    if es != [] {
      assert es[0] in es;
      assert Step(s, es[0]).longPolling && Step(s, es[0]).orphans == {};
      OrphansFromAbandon(Step(s, es[0]), es[1..]);
    }
  }

  /** Gate and swaps composed: with long polling on and no request abandoning its swap
      wait, at most one swap is unfinished, it is the one in the slot, it loads the
      gate's profile, and so no lifecycle work runs while a request of another profile
      holds a lease. */
  lemma LifecycleExclusion(s0: System, es: seq<Event>, i: nat)
    requires Starts(s0) && s0.longPolling && Runs(s0, es) && NobodyAbandons(es)
    requires S.Unfinished(After(s0, es).swap, i)
    ensures var s := After(s0, es);
      && s.swap.slot == Some(i)
      && (forall j: nat :: S.Unfinished(s.swap, j) ==> j == i)
      && s.gate.profile == Some(s.swap.tasks[i].target)
      && (forall t :: t in s.gate.leases ==> s.gate.leases[t] == s.swap.tasks[i].target)
  {
    OrphansFromAbandon(s0, es);
    UnfinishedSwapMatches(s0, es, i);
    StartInv(s0);
    RunKeeps(s0, es);
  }

  lemma {:induction false} RunExtends(s: System, es: seq<Event>, e: Event)
    requires Runs(s, es) && Enabled(After(s, es), e)
    ensures Runs(s, es + [e]) && After(s, es + [e]) == Step(After(s, es), e)
    decreases |es|
  {
    var all := es + [e];
    if es == [] {
      assert all[1..] == [];
    } else {
      RunExtends(Step(s, es[0]), es[1..], e);
      assert all[1..] == es[1..] + [e];
    }
  }

  /** "b" is loaded; the request for "a" has created its swap and gives up. */
  function AfterAbandon(): System {
    System(A.Gate(1, 0, 1, Some("a"), [], map[0 := "a"], {}, {}, [0], {}, 1),
           S.Swap([S.Task("a", false, true, S.Queued)], Some(0), Some("a"), None, Some("b"), Some("b"), []),
           true, map[0 := Returning(false)], map[0 := 0], {0})
  }

  /** Its slot is free again and a request for "b" is served. */
  function AfterSecondArrival(): System {
    System(A.Gate(1, 0, 1, Some("b"), [], map[1 := "b"], {}, {}, [0, 1], {}, 2),
           AfterAbandon().swap,
           true, map[0 := Finished, 1 := Serving], map[0 := 1, 1 := 0], {0})
  }

  lemma FirstHalf()
    ensures var s0 := Initial(1, 0, true, Some("b"));
      Runs(s0, [Arrive("a", true), Abandon(0)]) && After(s0, [Arrive("a", true), Abandon(0)]) == AfterAbandon()
  {
    var s0 := Initial(1, 0, true, Some("b"));
    assert Runs(s0, []);
    RunExtends(s0, [], Arrive("a", true));
    assert [] + [Arrive("a", true)] == [Arrive("a", true)];
    RunExtends(s0, [Arrive("a", true)], Abandon(0));
    assert [Arrive("a", true)] + [Abandon(0)] == [Arrive("a", true), Abandon(0)];
    assert Step(Step(s0, Arrive("a", true)), Abandon(0)) == AfterAbandon();
  }

  lemma SecondHalf()
    ensures var s2 := AfterAbandon();
      && Enabled(s2, Settle(0)) && Enabled(Step(s2, Settle(0)), Arrive("b", true))
      && Step(Step(s2, Settle(0)), Arrive("b", true)) == AfterSecondArrival()
  {
    var s3 := Step(AfterAbandon(), Settle(0));
    assert s3.gate.leases == map[];
    assert s3.gate == A.Gate(1, 0, 0, None, [], map[], {}, {}, [0], {}, 1);
  }

  /** The hypothesis is needed: "b" is loaded and a request for "a" starts a swap and
      gives up; the freed gate admits a request for "b", which finds its profile active
      and ready and is served while the swap to "a" does its lifecycle work. */
  lemma AbandonBreaksExclusion(es: seq<Event>)
    requires es == [Arrive("a", true), Abandon(0), Settle(0), Arrive("b", true), EnterSwap(0)]
    ensures var s0 := Initial(1, 0, true, Some("b"));
      && Starts(s0) && Runs(s0, es)
      && var s := After(s0, es);
         && s.swap.tasks == [S.Task("a", false, true, S.Working)]
         && s.gate.leases == map[1 := "b"] && At(s, 1, Serving)
  {
    var s0 := Initial(1, 0, true, Some("b"));
    FirstHalf();
    SecondHalf();
    var e2 := [Arrive("a", true), Abandon(0)];
    RunExtends(s0, e2, Settle(0));
    RunExtends(s0, e2 + [Settle(0)], Arrive("b", true));
    var e4 := e2 + [Settle(0)] + [Arrive("b", true)];
    RunExtends(s0, e4, EnterSwap(0));
    assert e4 + [EnterSwap(0)] == es;
  }
}
