/**
 Freedom from starvation by ranking.  A live waiter's rank counts the live entries
 ahead of it plus the leases that are out.  No arrival changes it; every release and
 every cancellation ahead lowers it by one; it cannot reach zero while the waiter
 still waits.
 */
module Starvation {
  import opened Common
  import opened AdmissionSpec
  import opened AdmissionTheorems

  function Ahead(g: Gate, t: Ticket): set<Ticket> {
    set u | u in Tickets(g.waiting) && u !in g.doomed && u < t
  }

  function Rank(g: Gate, t: Ticket): nat {
    |Ahead(g, t)| + |g.leases|
  }

  /** The events that bring waiter `t` nearer to its grant. */
  predicate Progress(g: Gate, e: Event, t: Ticket) {
    match e
    case Arrive(_) => false
    case Deliver(_) => false
    case Release(u) => u in g.leases
    case Cancel(u) => u < t
    case Handle(u) => u in g.unseen || (Live(g, u) && u < t)
  }

  lemma {:induction false} PromoteRank(g: Gate, t: Ticket)
    requires Core(g) && Live(Promote(g), t)
    ensures Live(g, t) && Rank(Promote(g), t) == Rank(g, t)
    decreases |g.waiting|
  {
    if g.waiting != [] && g.active < g.limit {
      TicketsPop(g.waiting);
      var rest := g.(waiting := g.waiting[1..]);
      if g.waiting[0].ticket in g.doomed {
        PromoteRank(rest, t);
        assert Ahead(rest, t) == Ahead(g, t);
      } else if g.active == 0 || g.profile == Some(g.waiting[0].profile) {
        PromoteOneKeeps(g);
        PromoteRank(PromoteOne(g), t);
        PromoteOneRank(g, t);
      }
    }
  }

  /** A granted head stops being ahead and becomes a lease: the sum stands. */
  lemma PromoteOneRank(g: Gate, t: Ticket)
    requires Core(g) && g.waiting != [] && g.waiting[0].ticket !in g.doomed
    requires t in Tickets(g.waiting[1..])
    ensures Rank(PromoteOne(g), t) == Rank(g, t)
  {
    var h := g.waiting[0].ticket;
    TicketsPop(g.waiting);
    HeadIsAhead(g, t);
    assert Ahead(PromoteOne(g), t) == Ahead(g, t) - {h};
    assert PromoteOne(g).leases.Keys == g.leases.Keys + {h};
    assert |g.leases.Keys + {h}| == |g.leases.Keys| + 1;
  }

  lemma HeadIsAhead(g: Gate, t: Ticket)
    requires Core(g) && g.waiting != [] && t in Tickets(g.waiting[1..]) && g.waiting[0].ticket !in g.doomed
    ensures g.waiting[0].ticket in Ahead(g, t) && g.waiting[0].ticket !in g.leases
  {
    TicketsPop(g.waiting);
    var i :| 0 <= i < |g.waiting[1..]| && g.waiting[1..][i].ticket == t;
    assert g.waiting[i + 1].ticket == t;
    assert g.waiting[0].ticket !in g.log;
  }

  lemma ReturnRank(g: Gate, u: Ticket, t: Ticket)
    requires u in g.leases
    ensures Rank(Return(g, u), t) == Rank(g, t) - 1 && Live(Return(g, u), t) == Live(g, t)
  {
    assert (g.leases - {u}).Keys == g.leases.Keys - {u};
    assert |g.leases.Keys - {u}| == |g.leases.Keys| - 1;
    assert Ahead(Return(g, u), t) == Ahead(g, t);
  }

  /** The handler's effect on a rank, before it promotes. */
  lemma ForgetRank(g: Gate, u: Ticket, t: Ticket)
    requires Core(g) && (u in g.doomed || Live(g, u)) && u != t
    ensures var g' := Forget(g, u);
      && Live(g', t) == Live(g, t)
      && Rank(g', t) == Rank(g, t) - if Live(g, u) && u < t then 1 else 0
  {
    WithoutMembers(g.waiting, u);
    var g' := Forget(g, u);
    if Live(g, u) && u < t {
      assert Ahead(g', t) == Ahead(g, t) - {u};
    } else {
      assert Ahead(g', t) == Ahead(g, t);
    }
  }

  lemma RacedHandleRank(g: Gate, u: Ticket, t: Ticket)
    requires Core(g) && u in g.unseen && Live(RunHandler(g, u), t)
    ensures Live(g, t) && u != t && Rank(RunHandler(g, u), t) == Rank(g, t) - 1
  {
    var g0 := g.(unseen := g.unseen - {u});
    RacedHandler(g, u);
    DeliverKeeps(g, u);
    assert Ahead(g0, t) == Ahead(g, t);
    ReleasedRank(g0, u, t);
    assert Ahead(RunHandler(g, u), t) == Ahead(Promote(Return(g0, u)), t);
  }

  lemma ReleasedRank(g: Gate, u: Ticket, t: Ticket)
    requires Core(g) && u in g.leases && u !in g.unseen && Live(Promote(Return(g, u)), t)
    ensures Live(g, t) && u != t && Rank(Promote(Return(g, u)), t) == Rank(g, t) - 1
  {
    ReturnKeeps(g, u);
    PromoteRank(Return(g, u), t);
    ReturnRank(g, u, t);
  }

  lemma HandleRank(g: Gate, u: Ticket, t: Ticket)
    requires Core(g) && Enabled(g, Handle(u)) && Live(RunHandler(g, u), t)
    ensures Live(g, t) && u != t
    ensures Rank(RunHandler(g, u), t) == Rank(g, t) - if Progress(g, Handle(u), t) then 1 else 0
  {
    if u in g.unseen {
      RacedHandleRank(g, u, t);
    } else {
      EntryForgotten(g, u);
      PromoteRank(Forget(g, u), t);
      WithoutMembers(g.waiting, u);
      ForgetRank(g, u, t);
    }
  }

  lemma AcquireRank(g: Gate, p: Profile, t: Ticket)
    requires Inv(g) && Live(g, t)
    ensures Live(Acquire(g, p), t) && Rank(Acquire(g, p), t) == Rank(g, t)
  {
    TicketsPush(g.waiting, Entry(g.next, p));
    assert Ahead(Acquire(g, p), t) == Ahead(g, t);
  }

  lemma CancelRank(g: Gate, u: Ticket, t: Ticket)
    requires Live(g, u) && Live(CancelFuture(g, u), t)
    ensures Live(g, t) && u != t
    ensures Rank(CancelFuture(g, u), t) == Rank(g, t) - if u < t then 1 else 0
  {
    var g' := CancelFuture(g, u);
    if u < t {
      assert Ahead(g', t) == Ahead(g, t) - {u};
    } else {
      assert Ahead(g', t) == Ahead(g, t);
    }
  }

  /** One step moves the rank of a waiter that keeps waiting by exactly its progress. */
  lemma StepRank(g: Gate, e: Event, t: Ticket)
    requires Inv(g) && Enabled(g, e) && Live(g, t) && Live(Step(g, e), t)
    ensures Rank(Step(g, e), t) == Rank(g, t) - if Progress(g, e, t) then 1 else 0
  {
    match e
    case Arrive(p) => AcquireRank(g, p, t);
    case Deliver(u) => assert Ahead(Step(g, e), t) == Ahead(g, t);
    case Release(u) =>
      if u in g.leases {
        ReturnKeeps(g, u);
        PromoteRank(Return(g, u), t);
        ReturnRank(g, u, t);
      }
    case Cancel(u) => CancelRank(g, u, t);
    case Handle(u) => HandleRank(g, u, t);
  }

  // ---------------------------------------------------------------- over a run

  function Count(g: Gate, es: seq<Event>, t: Ticket): nat
    decreases |es|
  {
    if es == [] then 0
    else (if Progress(g, es[0], t) then 1 else 0) + Count(Step(g, es[0]), es[1..], t)
  }

  /** Whoever has arrived and no longer waits was granted or turned away. */
  lemma LeftQueue(g: Gate, t: Ticket)
    requires Inv(g) && t < g.next && !Live(g, t)
    ensures t in g.log || t in g.turned
  {
  }

  lemma StepNext(g: Gate, e: Event)
    ensures g.next <= Step(g, e).next
  {
    match e
    case Arrive(p) =>
    case Deliver(t) =>
    case Release(t) => PromoteFixed(Return(g, t));
    case Cancel(t) =>
    case Handle(t) => HandleFixed(g, t);
  }

  /** Once a ticket has left the queue it does not come back. */
  lemma StepStaysOut(g: Gate, e: Event, t: Ticket)
    requires Inv(g) && Enabled(g, e) && t < g.next && !Live(g, t)
    ensures !Live(Step(g, e), t)
  {
    match e
    case Arrive(p) => TicketsPush(g.waiting, Entry(g.next, p));
    case Deliver(u) =>
    case Release(u) =>
      if u in g.leases && Live(Step(g, e), t) {
        ReturnKeeps(g, u);
        PromoteRank(Return(g, u), t);
      }
    case Cancel(u) =>
    case Handle(u) =>
      if Live(Step(g, e), t) {
        HandleRank(g, u, t);
      }
  }

  lemma {:induction false} RunStaysOut(g: Gate, es: seq<Event>, t: Ticket)
    requires Inv(g) && Runs(g, es) && t < g.next && !Live(g, t)
    ensures !Live(After(g, es), t) && t < After(g, es).next
    decreases |es|
  {
    if es != [] {
      StepKeeps(g, es[0]);
      StepNext(g, es[0]);
      StepStaysOut(g, es[0], t);
      RunStaysOut(Step(g, es[0]), es[1..], t);
    }
  }

  /** Along any run that leaves `t` waiting, rank plus progress is constant and the
      rank stays positive. */
  lemma {:induction false} RankBudget(g: Gate, es: seq<Event>, t: Ticket)
    requires Inv(g) && Runs(g, es) && Live(g, t) && Live(After(g, es), t)
    ensures Rank(After(g, es), t) + Count(g, es, t) == Rank(g, t)
    ensures Rank(After(g, es), t) >= 1
    decreases |es|
  {
    if es == [] {
      assert g.waiting != [];
    } else {
      var g' := Step(g, es[0]);
      StepKeeps(g, es[0]);
      StepNext(g, es[0]);
      if !Live(g', t) {
        assert t < g.next;
        RunStaysOut(g', es[1..], t);
      }
      StepRank(g, es[0], t);
      RankBudget(g', es[1..], t);
    }
  }

  /** No starvation: whatever else arrives, a run with as many releases and
      cancellations ahead as the waiter's rank has granted it, unless it was itself
      cancelled or timed out. */
  lemma NoStarvation(g: Gate, es: seq<Event>, t: Ticket)
    requires Inv(g) && Runs(g, es) && Live(g, t)
    requires Count(g, es, t) >= Rank(g, t)
    ensures t in After(g, es).log || Cancel(t) in es || Handle(t) in es
  {
    if Live(After(g, es), t) {
      RankBudget(g, es, t);
    } else {
      RunKeeps(g, es);
      RunNext(g, es);
      LeftQueue(After(g, es), t);
      if t !in After(g, es).log {
        TurnedByItself(g, es, t);
      }
    }
  }

  lemma {:induction false} RunNext(g: Gate, es: seq<Event>)
    ensures g.next <= After(g, es).next
    decreases |es|
  {
    if es != [] {
      StepNext(g, es[0]);
      RunNext(Step(g, es[0]), es[1..]);
    }
  }

  lemma {:induction false} TurnedByItself(g: Gate, es: seq<Event>, t: Ticket)
    requires t < g.next && t !in g.turned && t in After(g, es).turned
    ensures Cancel(t) in es || Handle(t) in es
    decreases |es|
  {
    StepFixed(g, es[0]);
    StepNext(g, es[0]);
    if t !in Step(g, es[0]).turned {
      TurnedByItself(Step(g, es[0]), es[1..], t);
    }
  }
}
