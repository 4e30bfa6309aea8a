/**
 What the admission gate guarantees over every run: lease accounting, first come
 first served, work conservation and freedom from starvation.
 */
module AdmissionTheorems {
  import opened Common
  import opened AdmissionSpec

  // ---------------------------------------------------------------- the deque

  lemma TicketsPop(ws: seq<Entry>)
    requires Sorted(ws) && ws != []
    ensures Sorted(ws[1..]) && Tickets(ws[1..]) == Tickets(ws) - {ws[0].ticket}
    ensures ws[0].ticket in Tickets(ws)
  {
    forall t | t in Tickets(ws) && t != ws[0].ticket ensures t in Tickets(ws[1..]) {
      var i :| 0 <= i < |ws| && ws[i].ticket == t;
      assert ws[1..][i - 1].ticket == t;
    }
  }

  lemma TicketsPush(ws: seq<Entry>, e: Entry)
    ensures Tickets(ws + [e]) == Tickets(ws) + {e.ticket}
  {
    var r := ws + [e];
    assert r[|ws|] == e;
    assert forall i :: 0 <= i < |ws| ==> r[i] == ws[i];
  }

  /** Removing one entry keeps the others, in order. */
  lemma WithoutMembers(ws: seq<Entry>, t: Ticket)
    requires Sorted(ws)
    ensures Sorted(Without(ws, t)) && |Without(ws, t)| <= |ws|
    ensures Tickets(Without(ws, t)) == Tickets(ws) - {t}
    ensures t !in Tickets(ws) ==> Without(ws, t) == ws
  {
    var p := Position(ws, t);
    if p < |ws| {
      var r := Without(ws, t);
      assert forall i :: 0 <= i < |r| ==> r[i] == if i < p then ws[i] else ws[i + 1];
      forall u | u in Tickets(ws) && u != t ensures u in Tickets(r) {
        var i :| 0 <= i < |ws| && ws[i].ticket == u;
        assert ws[i] == if i < p then r[i] else r[i - 1];
      }
    }
  }

  // ---------------------------------------------------------------- one step

  ghost predicate Core(g: Gate) {
    Safe(g) && Ordered(g) && Accounted(g)
  }

  /** Granting a ticket later than every grant so far. */
  lemma GrantKeeps(g: Gate, t: Ticket, p: Profile)
    requires Safe(g) && g.active < g.limit && t !in g.leases
    requires g.active == 0 || g.profile == Some(p)
    requires Ascending(g.log) && forall u :: u in g.log ==> u < t
    ensures Safe(Grant(g, t, p)) && Ascending(Grant(g, t, p).log)
  {
    assert g.leases[t := p].Keys == g.leases.Keys + {t};
    assert |g.leases[t := p].Keys| == |g.leases.Keys| + 1;
    assert forall i :: 0 <= i < |g.log| ==> g.log[i] in g.log;
    if g.active == 0 {
      assert g.leases.Keys == {};
    }
  }

  function PromoteOne(g: Gate): Gate
    requires g.waiting != []
  {
    var e := g.waiting[0];
    Grant(g.(waiting := g.waiting[1..]), e.ticket, e.profile).(unseen := g.unseen + {e.ticket})
  }

  lemma PromoteOneKeeps(g: Gate)
    requires Core(g) && g.waiting != [] && g.active < g.limit && g.waiting[0].ticket !in g.doomed
    requires g.active == 0 || g.profile == Some(g.waiting[0].profile)
    ensures Core(PromoteOne(g))
  {
    TicketsPop(g.waiting);
    GrantKeeps(g.(waiting := g.waiting[1..]), g.waiting[0].ticket, g.waiting[0].profile);
  }

  lemma {:induction false} PromoteKeeps(g: Gate)
    requires Core(g)
    ensures Core(Promote(g)) && Settled(Promote(g)) && WorkConserving(Promote(g))
    ensures forall t :: t in g.log ==> t in Promote(g).log
    decreases |g.waiting|
  {
    if g.waiting != [] && g.active < g.limit {
      TicketsPop(g.waiting);
      if g.waiting[0].ticket in g.doomed {
        PromoteKeeps(g.(waiting := g.waiting[1..]));
      } else if g.active == 0 || g.profile == Some(g.waiting[0].profile) {
        PromoteOneKeeps(g);
        PromoteKeeps(PromoteOne(g));
      }
    }
  }

  lemma ReturnKeeps(g: Gate, t: Ticket)
    requires Core(g) && t in g.leases && t !in g.unseen
    ensures Core(Return(g, t))
  {
    assert (g.leases - {t}).Keys == g.leases.Keys - {t};
    assert |g.leases.Keys - {t}| == |g.leases.Keys| - 1;
  }

  lemma DeliverKeeps(g: Gate, t: Ticket)
    requires Core(g)
    ensures Core(g.(unseen := g.unseen - {t}))
  {
  }

  lemma {:induction false} PromoteLeases(g: Gate)
    ensures forall t :: t in Promote(g).leases ==> t in g.leases || t in Tickets(g.waiting)
    decreases |g.waiting|
  {
    if g.waiting != [] && g.active < g.limit {
      var rest := g.(waiting := g.waiting[1..]);
      assert forall i :: 0 <= i < |rest.waiting| ==> rest.waiting[i] == g.waiting[i + 1];
      assert g.waiting[0].ticket in Tickets(g.waiting);
      if g.waiting[0].ticket in g.doomed {
        PromoteLeases(rest);
      } else if g.active == 0 || g.profile == Some(g.waiting[0].profile) {
        PromoteLeases(PromoteOne(g));
      }
    }
  }

  lemma ForgetReleased(g: Gate, t: Ticket)
    requires Core(g) && t in g.log && t !in g.leases
    ensures Core(Forget(g, t)) && Forget(g, t) == g.(turned := g.turned + {t})
  {
    WithoutMembers(g.waiting, t);
    assert g.doomed - {t} == g.doomed;
  }

  /** The entry of a cancelled or timed-out ticket leaves the deque. */
  lemma EntryForgotten(g: Gate, t: Ticket)
    requires Core(g) && (t in g.doomed || Live(g, t))
    ensures Core(Forget(g, t))
  {
    WithoutMembers(g.waiting, t);
    WithoutOrdered(g, t);
  }

  lemma WithoutOrdered(g: Gate, t: Ticket)
    requires Ordered(g)
    ensures Ordered(Forget(g, t))
  {
    WithoutMembers(g.waiting, t);
    var r := Without(g.waiting, t);
    assert forall i :: 0 <= i < |r| ==> r[i].ticket in Tickets(r);
  }

  /** A lease granted to a task that was cancelled before it resumed is given back. */
  lemma RacedGrantReturned(g: Gate, t: Ticket)
    requires Core(g) && t in g.unseen
    ensures var g1 := Promote(Return(g.(unseen := g.unseen - {t}), t));
      && Core(g1) && Settled(g1) && WorkConserving(g1) && t in g1.log && t !in g1.leases
  {
    var g0 := g.(unseen := g.unseen - {t});
    DeliverKeeps(g, t);
    ReturnKeeps(g0, t);
    PromoteKeeps(Return(g0, t));
    PromoteLeases(Return(g0, t));
  }

  /** Releasing already promotes, so the handler's own removal and promotion add nothing. */
  lemma RacedHandler(g: Gate, t: Ticket)
    requires Core(g) && t in g.unseen
    ensures var g1 := Promote(Return(g.(unseen := g.unseen - {t}), t));
      RunHandler(g, t) == g1.(turned := g1.turned + {t}) && Core(RunHandler(g, t))
  {
    RacedGrantReturned(g, t);
    ForgetReleased(Promote(Return(g.(unseen := g.unseen - {t}), t)), t);
  }

  lemma HandleKeeps(g: Gate, t: Ticket)
    requires Core(g) && Enabled(g, Handle(t))
    ensures Core(RunHandler(g, t)) && Settled(RunHandler(g, t)) && WorkConserving(RunHandler(g, t))
  {
    if t in g.unseen {
      RacedGrantReturned(g, t);
      RacedHandler(g, t);
    } else {
      EntryForgotten(g, t);
      PromoteKeeps(Forget(g, t));
    }
  }

  function Enqueue(g: Gate, p: Profile): Gate {
    g.(next := g.next + 1, waiting := g.waiting + [Entry(g.next, p)])
  }

  lemma EnqueueAccounted(g: Gate, p: Profile)
    requires Ordered(g) && Accounted(g)
    ensures Accounted(Enqueue(g, p))
  {
    TicketsPush(g.waiting, Entry(g.next, p));
    assert g.next !in Tickets(g.waiting);
  }

  lemma EnqueueOrdered(g: Gate, p: Profile)
    requires Ordered(g)
    ensures Ordered(Enqueue(g, p))
  {
  }

  lemma FastGrantAccounted(g: Gate, p: Profile)
    requires Accounted(g) && g.waiting == []
    ensures Accounted(Grant(g.(next := g.next + 1), g.next, p))
  {
    assert Tickets(g.waiting) == {};
  }

  lemma FastGrantOrdered(g: Gate, p: Profile)
    requires Ordered(g) && g.waiting == []
    ensures Ordered(Grant(g.(next := g.next + 1), g.next, p))
  {
    assert forall i :: 0 <= i < |g.log| ==> g.log[i] in g.log;
  }

  lemma FastGrantSafe(g: Gate, p: Profile)
    requires Safe(g) && g.active < g.limit && (g.active == 0 || g.profile == Some(p))
    requires Ordered(g) && g.next !in g.leases
    ensures Safe(Grant(g.(next := g.next + 1), g.next, p))
  {
    GrantKeeps(g.(next := g.next + 1), g.next, p);
  }

  lemma FastGrantKeeps(g: Gate, p: Profile)
    requires Core(g) && FastPath(g, p)
    ensures Core(Grant(g.(next := g.next + 1), g.next, p))
  {
    FastGrantAccounted(g, p);
    FastGrantOrdered(g, p);
    FastGrantSafe(g, p);
  }

  lemma AcquireKeeps(g: Gate, p: Profile)
    requires Inv(g)
    ensures Inv(Acquire(g, p))
  {
    if FastPath(g, p) {
      FastGrantKeeps(g, p);
    } else if |g.waiting| < g.maxWaiting {
      EnqueueOrdered(g, p);
      EnqueueAccounted(g, p);
    }
  }

  /** Every suspension-free stretch of the file keeps the invariant. */
  lemma StepKeeps(g: Gate, e: Event)
    requires Inv(g) && Enabled(g, e)
    ensures Inv(Step(g, e))
    ensures e.Handle? ==> Settled(Step(g, e))
  {
    match e
    case Arrive(p) => AcquireKeeps(g, p);
    case Deliver(t) => DeliverKeeps(g, t);
    case Release(t) =>
      if t in g.leases {
        ReturnKeeps(g, t);
        PromoteKeeps(Return(g, t));
      }
    case Cancel(t) =>
    case Handle(t) => HandleKeeps(g, t);
  }

  // ---------------------------------------------------------------- every run

  lemma {:induction false} RunKeeps(g: Gate, es: seq<Event>)
    requires Inv(g) && Runs(g, es)
    ensures Inv(After(g, es))
    decreases |es|
  {
    if es != [] {
      StepKeeps(g, es[0]);
      RunKeeps(Step(g, es[0]), es[1..]);
    }
  }

  /** In every reachable state `active` counts the unreleased leases, raced and
      undelivered ones included; they are within the limit and of one profile. */
  lemma GateSafety(limit: int, maxWaiting: int, es: seq<Event>)
    requires 1 <= limit && 0 <= maxWaiting && Runs(Empty(limit, maxWaiting), es)
    ensures var g := After(Empty(limit, maxWaiting), es);
      && g.active == |g.leases| && 0 <= g.active <= limit
      && g.unseen <= g.leases.Keys
      && (forall t :: t in g.leases ==> g.profile == Some(g.leases[t]))
      && (g.profile == None <==> g.active == 0)
      && |g.waiting| <= maxWaiting
  {
    RunKeeps(Empty(limit, maxWaiting), es);
    LimitsFixed(Empty(limit, maxWaiting), es);
  }

  /** First come, first served: before ticket u's later rival is granted, u was
      granted, or it was rejected, timed out or cancelled. */
  lemma StrictFifo(limit: int, maxWaiting: int, es: seq<Event>, i: nat, u: Ticket)
    requires 1 <= limit && 0 <= maxWaiting && Runs(Empty(limit, maxWaiting), es)
    requires i < |After(Empty(limit, maxWaiting), es).log| && u < After(Empty(limit, maxWaiting), es).log[i]
    ensures var g := After(Empty(limit, maxWaiting), es);
      u in g.log[..i] || (u in g.turned && u !in g.log[i..])
  {
    RunKeeps(Empty(limit, maxWaiting), es);
    var g := After(Empty(limit, maxWaiting), es);
    if u in g.log {
      var j :| 0 <= j < |g.log| && g.log[j] == u;
      assert j < i;
      assert g.log[..i][j] == u;
    } else {
      assert g.log[i] in g.log;
    }
  }

  /** No slot idles while someone it could serve waits, except until the handler of
      a cancelled head runs; and a non-empty queue always has a lease out to wait for. */
  lemma WorkConservation(limit: int, maxWaiting: int, es: seq<Event>)
    requires 1 <= limit && 0 <= maxWaiting && Runs(Empty(limit, maxWaiting), es)
    ensures var g := After(Empty(limit, maxWaiting), es);
      && (g.waiting != [] ==> g.leases != map[])
      && (g.waiting == [] || g.active == limit || g.profile != Some(g.waiting[0].profile)
          || (g.waiting[0].ticket in g.doomed && Enabled(g, Handle(g.waiting[0].ticket))))
    ensures es != [] && es[|es| - 1].Handle? ==>
      var g := After(Empty(limit, maxWaiting), es);
      g.waiting == [] || g.active == limit || (Live(g, g.waiting[0].ticket) && g.profile != Some(g.waiting[0].profile))
  {
    RunKeeps(Empty(limit, maxWaiting), es);
    LimitsFixed(Empty(limit, maxWaiting), es);
    if es != [] {
      LastStep(Empty(limit, maxWaiting), es);
    }
  }

  lemma {:induction false} LastStep(g: Gate, es: seq<Event>)
    requires Inv(g) && Runs(g, es) && es != []
    ensures es[|es| - 1].Handle? ==> Settled(After(g, es))
    decreases |es|
  {
    StepKeeps(g, es[0]);
    if |es| > 1 {
      LastStep(Step(g, es[0]), es[1..]);
    } else {
      assert After(g, es) == Step(g, es[0]);
    }
  }

  lemma {:induction false} PromoteFixed(g: Gate)
    ensures Promote(g).limit == g.limit && Promote(g).maxWaiting == g.maxWaiting
    ensures Promote(g).turned == g.turned && Promote(g).doomed == g.doomed && Promote(g).next == g.next
    decreases |g.waiting|
  {
    if g.waiting != [] && g.active < g.limit {
      if g.waiting[0].ticket in g.doomed {
        PromoteFixed(g.(waiting := g.waiting[1..]));
      } else if g.active == 0 || g.profile == Some(g.waiting[0].profile) {
        PromoteFixed(PromoteOne(g));
      }
    }
  }

  lemma HandleFixed(g: Gate, t: Ticket)
    ensures var g' := RunHandler(g, t);
      g'.limit == g.limit && g'.maxWaiting == g.maxWaiting && g'.next == g.next && g'.turned == g.turned + {t}
  {
    var g0 := g.(unseen := g.unseen - {t});
    PromoteFixed(Return(g0, t));
    PromoteFixed(Forget(if t in g.unseen then ReleaseLease(g0, t) else g, t));
  }

  lemma StepFixed(g: Gate, e: Event)
    ensures Step(g, e).limit == g.limit && Step(g, e).maxWaiting == g.maxWaiting
    ensures g.turned <= Step(g, e).turned
    ensures forall t :: t in Step(g, e).turned && t !in g.turned && t < g.next ==> e == Cancel(t) || e == Handle(t)
  {
    match e
    case Arrive(p) =>
    case Deliver(t) =>
    case Release(t) => PromoteFixed(Return(g, t));
    case Cancel(t) =>
    case Handle(t) =>
      HandleFixed(g, t);
  }

  lemma {:induction false} LimitsFixed(g: Gate, es: seq<Event>)
    ensures After(g, es).limit == g.limit && After(g, es).maxWaiting == g.maxWaiting
    decreases |es|
  {
    if es != [] {
      StepFixed(g, es[0]);
      LimitsFixed(Step(g, es[0]), es[1..]);
    }
  }

  /** What becomes of an arrival, in plain terms: granted at once if nobody waits, a slot is
      free and no other profile holds one; turned away if the queue is full; and the last
      of the queue otherwise. */
  lemma ArrivalIff(g: Gate, p: Profile)
    requires Inv(g)
    ensures var g', t := Acquire(g, p), g.next;
      var free := g.waiting == [] && g.active < g.limit && (g.active == 0 || g.profile == Some(p));
      && (t in g'.leases <==> free) && (t in g'.log <==> free)
      && (t in g'.turned <==> !free && |g.waiting| == g.maxWaiting)
      && (t in Tickets(g'.waiting) <==> !free && |g.waiting| < g.maxWaiting)
      && (!free && |g.waiting| < g.maxWaiting ==> g'.waiting == g.waiting + [Entry(t, p)])
      && g'.next == t + 1
  {
    TicketsPush(g.waiting, Entry(g.next, p));
  }

  // ---------------------------------------------------------------- what was asked for

  /** The profiles of the arrivals, in order: that of ticket t is at index t. */
  function Arrivals(es: seq<Event>): seq<Profile> {
    if es == [] then [] else (if es[0].Arrive? then [es[0].profile] else []) + Arrivals(es[1..])
  }

  /** Leases and entries carry the profile their ticket arrived with. */
  predicate AsAsked(g: Gate, asked: seq<Profile>) {
    && (forall t | t in g.leases :: t < |asked| && g.leases[t] == asked[t])
    && (forall e | e in g.waiting :: e.ticket < |asked| && e.profile == asked[e.ticket])
  }

  lemma {:induction false} PromoteAsAsked(g: Gate, asked: seq<Profile>)
    requires AsAsked(g, asked)
    ensures AsAsked(Promote(g), asked)
    decreases |g.waiting|
  {
    if g.waiting != [] && g.active < g.limit {
      var e := g.waiting[0];
      assert e in g.waiting && forall x | x in g.waiting[1..] :: x in g.waiting;
      var rest := g.(waiting := g.waiting[1..]);
      if e.ticket in g.doomed {
        PromoteAsAsked(rest, asked);
      } else if g.active == 0 || g.profile == Some(e.profile) {
        PromoteAsAsked(Grant(rest, e.ticket, e.profile).(unseen := g.unseen + {e.ticket}), asked);
      }
    }
  }

  lemma ForgetAsAsked(g: Gate, t: Ticket, asked: seq<Profile>)
    requires AsAsked(g, asked)
    ensures AsAsked(Forget(g, t), asked)
  {
    var i := Position(g.waiting, t);
    if i < |g.waiting| {
      forall e | e in g.waiting[..i] + g.waiting[i + 1..] ensures e in g.waiting {
      }
    }
  }

  lemma ReleaseAsAsked(g: Gate, t: Ticket, asked: seq<Profile>)
    requires AsAsked(g, asked)
    ensures AsAsked(ReleaseLease(g, t), asked)
  {
    if t in g.leases {
      PromoteAsAsked(Return(g, t), asked);
    }
  }

  lemma StepAsAsked(g: Gate, e: Event, asked: seq<Profile>)
    requires AsAsked(g, asked) && |asked| == g.next && Enabled(g, e)
    ensures var asked' := asked + (if e.Arrive? then [e.profile] else []);
      AsAsked(Step(g, e), asked') && |asked'| == Step(g, e).next
  {
    StepNextIs(g, e);
    match e
    case Arrive(_) =>
    case Deliver(_) =>
    case Release(t) => ReleaseAsAsked(g, t, asked);
    case Cancel(_) =>
    case Handle(t) =>
      var g1 := if t in g.unseen then ReleaseLease(g.(unseen := g.unseen - {t}), t) else g;
      ReleaseAsAsked(g.(unseen := g.unseen - {t}), t, asked);
      ForgetAsAsked(g1, t, asked);
      PromoteAsAsked(Forget(g1, t), asked);
  }

  lemma StepNextIs(g: Gate, e: Event)
    ensures Step(g, e).next == if e.Arrive? then g.next + 1 else g.next
  {
    match e
    case Release(t) => PromoteFixed(Return(g, t));
    case Handle(t) => HandleFixed(g, t);
    case _ =>
  }

  lemma {:induction false} RunAsAsked(g: Gate, es: seq<Event>, asked: seq<Profile>)
    requires AsAsked(g, asked) && |asked| == g.next && Runs(g, es)
    ensures AsAsked(After(g, es), asked + Arrivals(es)) && |asked + Arrivals(es)| == After(g, es).next
    decreases |es|
  {
    if es == [] {
      assert asked + [] == asked;
    } else {
      var one := if es[0].Arrive? then [es[0].profile] else [];
      StepAsAsked(g, es[0], asked);
      RunAsAsked(Step(g, es[0]), es[1..], asked + one);
      assert asked + one + Arrivals(es[1..]) == asked + (one + Arrivals(es[1..]));
      assert asked + [] == asked;
    }
  }

  /** In every run each lease, and each entry of the queue, is for the profile its own caller
      asked for. */
  lemma LeasesAsAsked(limit: int, maxWaiting: int, es: seq<Event>)
    requires Runs(Empty(limit, maxWaiting), es)
    ensures AsAsked(After(Empty(limit, maxWaiting), es), Arrivals(es))
  {
    RunAsAsked(Empty(limit, maxWaiting), es, []);
    assert [] + Arrivals(es) == Arrivals(es);
  }
}
