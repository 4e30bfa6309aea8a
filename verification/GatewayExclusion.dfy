/** When lifecycle work and the leases of other profiles exclude each other, exactly. */
module GatewayExclusion {
  import opened Common
  import opened GatewaySpec
  import A = AdmissionSpec
  import S = SwapSpec
  import T = GatewayTheorems

  /** Every unfinished swap task loads the profile of every lease that is out. */
  ghost predicate Exclusion(s: System) {
    forall i: nat, t :: S.Unfinished(s.swap, i) && t in s.gate.leases ==> s.gate.leases[t] == s.swap.tasks[i].target
  }

  /** An abandoned task is unfinished and would load another profile than `p`. */
  ghost predicate Clashes(s: System, p: Profile) {
    exists i: nat :: i in s.orphans && S.Unfinished(s.swap, i) && s.swap.tasks[i].target != p
  }

  ghost predicate GateClashes(s: System) {
    s.gate.profile.Some? && Clashes(s, s.gate.profile.value)
  }

  /** A task that nobody abandoned loads the gate's profile. */
  lemma AttendedMatches(s: System, i: nat)
    requires Inv(s) && S.Unfinished(s.swap, i) && i !in s.orphans
    ensures s.gate.profile == Some(s.swap.tasks[i].target)
  {
    var u :| WaitsFor(s, u, i);
    assert Waits(s, u);
  }

  lemma SomeLease(g: A.Gate)
    requires A.Safe(g) && g.profile.Some?
    ensures exists t :: t in g.leases && g.leases[t] == g.profile.value
  {
    assert |g.leases| > 0;
    assert g.leases != map[];
    var t :| t in g.leases;
  }

  /** In every state that gate and swaps can reach together, exclusion holds if and only if
      no abandoned, unfinished task clashes with the gate's one profile. */
  lemma InvExclusionIff(s: System)
    requires Inv(s)
    ensures Exclusion(s) <==> !GateClashes(s)
  {
    if GateClashes(s) {
      var i: nat :| i in s.orphans && S.Unfinished(s.swap, i) && s.swap.tasks[i].target != s.gate.profile.value;
      SomeLease(s.gate);
      var t :| t in s.gate.leases && s.gate.leases[t] == s.gate.profile.value;
      assert !Exclusion(s);
    } else {
      forall i: nat, t | S.Unfinished(s.swap, i) && t in s.gate.leases
        ensures s.gate.leases[t] == s.swap.tasks[i].target
      {
        if i !in s.orphans {
          AttendedMatches(s, i);
        }
      }
    }
  }

  lemma ExclusionIff(s0: System, es: seq<Event>)
    requires T.Starts(s0) && Runs(s0, es)
    ensures Exclusion(After(s0, es)) <==> !GateClashes(After(s0, es))
  {
    T.StartInv(s0);
    T.RunKeeps(s0, es);
    InvExclusionIff(After(s0, es));
  }

  // ---------------------------------------------------------------- the step that breaks it

  /** Among the tasks, a step changes phases and adds at most one, and never revives one. */
  ghost predicate TasksGrow(s: System, s': System) {
    && |s.swap.tasks| <= |s'.swap.tasks|
    && (forall i: nat :: i < |s.swap.tasks| ==> s'.swap.tasks[i].target == s.swap.tasks[i].target)
    && (forall i: nat :: i < |s.swap.tasks| && S.Unfinished(s'.swap, i) ==> S.Unfinished(s.swap, i))
    && s.orphans <= s'.orphans
  }

  /** A task that a step abandons, or adds, is for the profile of the gate afterwards. */
  ghost predicate NewOrphansMatch(s: System, s': System) {
    forall i: nat :: i in s'.orphans && S.Unfinished(s'.swap, i) && !(i in s.orphans && S.Unfinished(s.swap, i)) ==>
      s'.gate.profile == Some(s'.swap.tasks[i].target)
  }

  /** Tasks finish in steps that leave the gate alone. */
  ghost predicate FinishApart(s: System, s': System) {
    s'.gate == s.gate || forall i: nat :: S.Unfinished(s.swap, i) ==> S.Unfinished(s'.swap, i)
  }

  lemma DecideGrows(s: System, t: Ticket, p: Profile, ready: bool)
    requires S.Inv(s.swap) && s.gate.profile == Some(p)
    ensures var s' := Decide(s, t, p, ready);
      TasksGrow(s, s') && NewOrphansMatch(s, s') && FinishApart(s, s') && s'.gate == s.gate
      && (forall i: nat :: S.Unfinished(s.swap, i) ==> S.Unfinished(s'.swap, i))
  {
  }

  lemma LeaseProfile(s: System, t: Ticket)
    requires A.Safe(s.gate) && t in s.gate.leases
    ensures s.gate.profile == Some(s.gate.leases[t])
  {
  }

  lemma ArriveGrows(s: System, p: Profile, ready: bool)
    requires Inv(s)
    ensures var s' := Enter(s, p, ready);
      TasksGrow(s, s') && NewOrphansMatch(s, s') && FinishApart(s, s')
  {
    if A.FastPath(s.gate, p) {
      var t := s.gate.next;
      var s1 := s.(gate := A.Acquire(s.gate, p), calls := s.calls[t := 0]);
      DecideGrows(s1, t, p, ready);
    }
  }

  lemma ResumeGrows(s: System, t: Ticket, ready: bool)
    requires Inv(s) && Enabled(s, Resume(t, ready))
    ensures var s' := Step(s, Resume(t, ready));
      TasksGrow(s, s') && NewOrphansMatch(s, s') && FinishApart(s, s')
  {
    LeaseProfile(s, t);
    DecideGrows(s.(gate := A.Step(s.gate, A.Deliver(t))), t, s.gate.leases[t], ready);
  }

  lemma SameTasks(s: System, s': System)
    requires s'.swap == s.swap && s'.orphans == s.orphans
    ensures TasksGrow(s, s') && NewOrphansMatch(s, s') && FinishApart(s, s')
  {
  }

  lemma EnterGrows(s: System, i: nat)
    requires Enabled(s, EnterSwap(i))
    ensures var s' := Step(s, EnterSwap(i)); TasksGrow(s, s') && NewOrphansMatch(s, s') && FinishApart(s, s')
  {
  }

  lemma LeaveGrows(s: System, i: nat, ok: bool)
    requires Enabled(s, LeaveSwap(i, ok))
    ensures var s' := Step(s, LeaveSwap(i, ok)); TasksGrow(s, s') && NewOrphansMatch(s, s') && FinishApart(s, s')
  {
  }

  lemma AbandonGrows(s: System, t: Ticket)
    requires Inv(s) && Enabled(s, Abandon(t))
    ensures var s' := Step(s, Abandon(t)); TasksGrow(s, s') && NewOrphansMatch(s, s') && FinishApart(s, s')
  {
    assert Waits(s, t);
    LeaseProfile(s, t);
  }

  lemma StepGrows(s: System, e: Event)
    requires Inv(s) && Enabled(s, e)
    ensures var s' := Step(s, e); TasksGrow(s, s') && NewOrphansMatch(s, s') && FinishApart(s, s')
  {
    match e
    case Arrive(p, ready) => ArriveGrows(s, p, ready);
    case Resume(t, ready) => ResumeGrows(s, t, ready);
    case EnterSwap(i) => EnterGrows(s, i);
    case LeaveSwap(i, ok) => LeaveGrows(s, i, ok);
    case Abandon(t) => AbandonGrows(s, t);
    case _ => SameTasks(s, Step(s, e));
  }

  /** From a state with exclusion, a step breaks it if and only if it leaves the gate with a
      profile that clashes with a task abandoned before the step. */
  lemma BreaksIff(s: System, e: Event)
    requires Inv(s) && Enabled(s, e) && Exclusion(s)
    ensures var s' := Step(s, e);
      !Exclusion(s') <==> s'.gate.profile.Some? && Clashes(s, s'.gate.profile.value)
  {
    var s' := Step(s, e);
    StepGrows(s, e);
    T.StepKeeps(s, e);
    InvExclusionIff(s);
    InvExclusionIff(s');
    ClashMoves(s, s');
  }

  lemma ClashMoves(s: System, s': System)
    requires TasksGrow(s, s') && NewOrphansMatch(s, s') && FinishApart(s, s') && S.Inv(s.swap)
    requires !GateClashes(s)
    ensures GateClashes(s') <==> s'.gate.profile.Some? && Clashes(s, s'.gate.profile.value)
  {
    if s'.gate.profile.Some? {
      var p := s'.gate.profile.value;
      if i: nat :| i in s'.orphans && S.Unfinished(s'.swap, i) && s'.swap.tasks[i].target != p {
        assert i in s.orphans && S.Unfinished(s.swap, i) && s.swap.tasks[i].target != p;
      }
      if i: nat :| i in s.orphans && S.Unfinished(s.swap, i) && s.swap.tasks[i].target != p {
        assert s'.gate != s.gate;
        assert i in s'.orphans && S.Unfinished(s'.swap, i) && s'.swap.tasks[i].target != p;
      }
    }
  }

  /** So a request admitted at once breaks it exactly if a task abandoned before its arrival
      is unfinished and for another profile, and a request not admitted never does. */
  lemma ArrivalBreaksIff(s: System, p: Profile, ready: bool)
    requires Inv(s) && Exclusion(s)
    ensures !Exclusion(Step(s, Arrive(p, ready))) <==> A.FastPath(s.gate, p) && Clashes(s, p)
  {
    BreaksIff(s, Arrive(p, ready));
    InvExclusionIff(s);
  }

  // ---------------------------------------------------------------- duplicates

  predicate Idle(s: System) {
    && s.gate.active == 0 && s.gate.waiting == [] && s.gate.leases == map[] && s.gate.limit >= 1
    && !s.longPolling
  }

  /** With long polling off a request that needs a swap asks for it and is gone. */
  lemma Refused(s: System, p: Profile, ready: bool)
    requires Idle(s) && S.NeedsSwap(s.swap, p, ready)
    ensures var s1 := Step(s, Arrive(p, ready));
      && Enabled(s1, Settle(s.gate.next)) && s1.swap == S.Step(s.swap, S.Request(p, ready))
      && var s2 := Step(s1, Settle(s.gate.next));
         Idle(s2) && s2.gate.next == s.gate.next + 1 && s2.swap == s1.swap
  {
    var g := A.Acquire(s.gate, p);
    assert g.leases == map[s.gate.next := p];
    assert A.ReleaseLease(g, s.gate.next).leases == map[];
  }

  lemma RefusedRun(s0: System, es: seq<Event>, p: Profile, n: nat)
    requires Runs(s0, es) && Idle(After(s0, es)) && After(s0, es).gate.next == n
    requires S.NeedsSwap(After(s0, es).swap, p, true)
    ensures var es' := es + [Arrive(p, true)] + [Settle(n)];
      && Runs(s0, es') && Idle(After(s0, es')) && After(s0, es').gate.next == n + 1
      && After(s0, es').swap == S.Step(After(s0, es).swap, S.Request(p, true))
  {
    Refused(After(s0, es), p, true);
    T.RunExtends(s0, es, Arrive(p, true));
    T.RunExtends(s0, es + [Arrive(p, true)], Settle(n));
  }

  lemma AskedRun(s0: System, es: seq<Event>, p: Profile)
    requires Runs(s0, es) && Idle(After(s0, es)) && S.NeedsSwap(After(s0, es).swap, p, true)
    ensures Runs(s0, es + [Arrive(p, true)])
    ensures After(s0, es + [Arrive(p, true)]).swap == S.Step(After(s0, es).swap, S.Request(p, true))
  {
    Refused(After(s0, es), p, true);
    T.RunExtends(s0, es, Arrive(p, true));
  }

  lemma ThreeRequests(w0: S.Swap, w1: S.Swap, w2: S.Swap)
    requires w0 == S.Initial(None)
    requires w1 == S.Step(w0, S.Request("a", true)) && w2 == S.Step(w1, S.Request("b", true))
    ensures S.NeedsSwap(w2, "a", true)
    ensures var w := S.Step(w2, S.Request("a", true));
      |w.tasks| == 3 && w.tasks[0].target == w.tasks[2].target == "a" && S.Unfinished(w, 0) && S.Unfinished(w, 2)
  {
  }

  /** From an idle gate with no swap task yet. */
  lemma TwoForOne(s0: System, es: seq<Event>)
    requires Idle(s0) && s0.gate.next == 0 && s0.swap == S.Initial(None)
    requires es == [Arrive("a", true), Settle(0), Arrive("b", true), Settle(1), Arrive("a", true)]
    ensures Runs(s0, es)
    ensures var w := After(s0, es).swap;
      |w.tasks| == 3 && w.tasks[0].target == w.tasks[2].target == "a" && S.Unfinished(w, 0) && S.Unfinished(w, 2)
  {
    RefusedRun(s0, [], "a", 0);
    var e2 := [] + [Arrive("a", true)] + [Settle(0)];
    RefusedRun(s0, e2, "b", 1);
    var e4 := e2 + [Arrive("b", true)] + [Settle(1)];
    AskedRun(s0, e4, "a");
    assert es == e4 + [Arrive("a", true)];
    ThreeRequests(s0.swap, After(s0, e2).swap, After(s0, e4).swap);
  }

  /** The endpoint itself can create two unfinished tasks for one target: with long polling
      off, requests for "a", "b" and "a" again come and go, and the slot forgets "a". */
  lemma DuplicateTasks(es: seq<Event>)
    requires es == [Arrive("a", true), Settle(0), Arrive("b", true), Settle(1), Arrive("a", true)]
    ensures var s0 := Initial(1, 0, false, None);
      && T.Starts(s0) && Runs(s0, es)
      && var w := After(s0, es).swap;
         |w.tasks| == 3 && w.tasks[0].target == w.tasks[2].target == "a" && S.Unfinished(w, 0) && S.Unfinished(w, 2)
  {
    TwoForOne(Initial(1, 0, false, None), es);
  }
}
