/**
 gateway/admission.py as it is written: a queue and its leases, updated in place.
 Each method is one suspension-free stretch and is proved to take the step of
 AdmissionSpec that its name says, on the ghost state `gate`.

 An asyncio future is named by the ticket of the call that made it; its state lives
 in `futures`.
 */
module Admission {
  import opened Common
  import opened AdmissionSpec
  import T = AdmissionTheorems

  datatype FutureState = Pending | Granted(lease: Lease) | Cancelled {
    predicate Done() { !Pending? }
  }

  class Lease {
    const queue: AdmissionQueue
    ghost const ticket: Ticket
    var released: bool

    constructor (queue: AdmissionQueue, ghost ticket: Ticket)
      ensures this.queue == queue && this.ticket == ticket && !released
    {
      this.queue := queue;
      this.ticket := ticket;
      released := false;
    }

    /** Gives the slot back once; every further call changes nothing. */
    method Release()
      requires queue.Valid() && queue.Issues(this) && Issued(queue.gate, ticket)
      modifies queue, queue.Repr
      ensures queue.Valid() && queue.Keeps(old(queue.leases)) && fresh(queue.Repr - old(queue.Repr))
      ensures queue.Took(old(queue.trail), old(queue.gate), AdmissionSpec.Release(ticket))
      ensures released
    {
      queue.Record(AdmissionSpec.Release(ticket));
      GiveBack();
    }

    /** Release without its entry in the history: the handler of `acquire` calls it too. */
    method GiveBack()
      requires queue.Linked() && queue.Issues(this)
      requires Distinct(queue.gate) && (ticket in queue.gate.leases ==> Distinct(Return(queue.gate, ticket)))
      modifies this, queue`active, queue`profile, queue`waiting, queue`futures, queue`leases, queue`Repr, queue`gate
      ensures queue.Linked() && queue.Keeps(old(queue.leases)) && fresh(queue.Repr - old(queue.Repr))
      ensures queue.gate == ReleaseLease(old(queue.gate), ticket) && Distinct(queue.gate)
      ensures released
    {
      if !released {
        queue.TakeBack(this);
        queue.Promote();
      }
    }
  }

  lemma PromoteDistinct(g: Gate)
    requires Distinct(g) && g.waiting != [] && g.waiting[0].ticket !in g.doomed
    ensures Distinct(T.PromoteOne(g))
  {
    T.TicketsPop(g.waiting);
  }

  /** Every future has the state its ticket's whereabouts call for. */
  ghost predicate FuturesAgree(g: Gate, fs: map<Ticket, FutureState>, ls: map<Ticket, Lease>) {
    && (forall t :: t in fs ==> t < g.next)
    && (forall t :: t in g.doomed ==> t in fs && fs[t] == Cancelled)
    && (forall t :: t in g.unseen ==> t in fs && t in ls && fs[t] == Granted(ls[t]))
    && (forall t :: t in Tickets(g.waiting) && t !in g.doomed ==> t in fs && fs[t] == Pending)
  }

  lemma FutureOfHead(g: Gate, fs: map<Ticket, FutureState>, ls: map<Ticket, Lease>)
    requires FuturesAgree(g, fs, ls) && g.waiting != []
    ensures var t := g.waiting[0].ticket; t in fs && (fs[t].Done() <==> t in g.doomed)
  {
    assert g.waiting[0].ticket in Tickets(g.waiting);
  }

  lemma HandledFuture(g: Gate, fs: map<Ticket, FutureState>, ls: map<Ticket, Lease>, t: Ticket)
    requires FuturesAgree(g, fs, ls) && Enabled(g, Handle(t)) && (t in g.unseen ==> t !in g.doomed)
    ensures t in fs && (t in g.unseen <==> fs[t].Done() && !fs[t].Cancelled?)
    ensures t in g.unseen || t in g.doomed || Live(g, t)
  {
  }

  /** The events so far and the gates between them. */
  datatype Trail = Trail(gates: seq<Gate>, events: seq<Event>) {
    ghost predicate Sound() {
      && |gates| == |events| + 1
      && (forall i :: 0 <= i < |events| ==> Enabled(gates[i], events[i]) && gates[i + 1] == Step(gates[i], events[i]))
    }

    /** A run from an empty gate that ends in `g`. */
    ghost predicate LeadsTo(limit: int, maxWaiting: int, g: Gate) {
      1 <= limit && 0 <= maxWaiting && Sound() && gates[0] == Empty(limit, maxWaiting) && gates[|events|] == g
    }

    function Append(g: Gate, e: Event): Trail {
      Trail(gates + [Step(g, e)], events + [e])
    }
  }

  lemma {:induction false} TrailRuns(tr: Trail)
    requires tr.Sound()
    ensures Runs(tr.gates[0], tr.events) && After(tr.gates[0], tr.events) == tr.gates[|tr.events|]
    decreases |tr.events|
  {
    if tr.events != [] {
      TrailRuns(Trail(tr.gates[1..], tr.events[1..]));
    }
  }

  lemma TrailInv(tr: Trail, limit: int, maxWaiting: int, g: Gate)
    requires tr.LeadsTo(limit, maxWaiting, g)
    ensures Distinct(g)
    ensures Inv(g)
  {
    TrailRuns(tr);
    T.RunKeeps(Empty(limit, maxWaiting), tr.events);
  }

  /** A granted lease that has not reached its task is out, and its entry is gone. */
  lemma UnseenGranted(tr: Trail, limit: int, maxWaiting: int, g: Gate, t: Ticket)
    requires tr.LeadsTo(limit, maxWaiting, g) && t in g.unseen
    ensures t in g.leases && t in g.log && t !in g.turned && t !in g.doomed && t !in Tickets(g.waiting)
    ensures Distinct(Return(g.(unseen := g.unseen - {t}), t))
  {
    TrailInv(tr, limit, maxWaiting, g);
  }

  lemma PromoteFutures(g: Gate, fs: map<Ticket, FutureState>, ls: map<Ticket, Lease>, l: Lease)
    requires FuturesAgree(g, fs, ls)
    requires Distinct(g) && g.waiting != [] && g.waiting[0].ticket !in g.doomed
    ensures var t := g.waiting[0].ticket; FuturesAgree(T.PromoteOne(g), fs[t := Granted(l)], ls[t := l])
  {
    T.TicketsPop(g.waiting);
  }

  /** The three ways the first stretch of `acquire` ends. */
  datatype Arrival = Admitted(lease: Lease) | Rejected | Queued

  /** All that the methods below need of the gate invariant. */
  ghost predicate Distinct(g: Gate) {
    && Sorted(g.waiting)
    && (forall t :: t in Tickets(g.waiting) ==> t !in g.log && t !in g.leases && t !in g.unseen)
    && (forall t :: t in Tickets(g.waiting) || t in g.log || t in g.doomed ==> t < g.next)
  }

  class AdmissionQueue {
    const limit: int
    const maxWaiting: int
    var active: int
    var profile: Option<Profile>
    var waiting: seq<Entry>
    var futures: map<Ticket, FutureState>
    var next: Ticket

    ghost var gate: Gate
    ghost var leases: map<Ticket, Lease> // every lease ever granted
    ghost var Repr: set<Lease>           // the same, as a footprint
    ghost var trail: Trail               // every stretch so far

    ghost predicate Issues(l: Lease)
      reads this
    {
      l.ticket in leases && leases[l.ticket] == l && l.queue == this
    }

    ghost predicate FieldsLinked()
      reads this
    {
      gate.limit == limit && gate.maxWaiting == maxWaiting && gate.active == active &&
      gate.profile == profile && gate.waiting == waiting && gate.next == next
    }

    ghost predicate LeasesLinked()
      reads this, Repr
    {
      && (forall t :: t in leases <==> t in gate.log)
      && (forall t :: t in leases ==> leases[t] in Repr && leases[t].ticket == t && leases[t].queue == this)
      && (forall t :: t in leases ==> (leases[t].released <==> t !in gate.leases))
    }

    /** The objects agree with the gate they stand for. */
    ghost predicate Linked()
      reads this, Repr
    {
      FieldsLinked() && FuturesAgree(gate, futures, leases) && LeasesLinked()
    }

    ghost predicate Keeps(ls: map<Ticket, Lease>)
      reads this
    {
      forall t :: t in ls ==> t in leases && leases[t] == ls[t]
    }

    /** Between two stretches the queue stands for the gate its history leads to. */
    ghost predicate Valid()
      reads this, Repr
    {
      Linked() && Distinct(gate) && trail.LeadsTo(limit, maxWaiting, gate)
    }

    ghost predicate Took(tr: Trail, g: Gate, e: Event)
      reads this
    {
      trail == tr.Append(g, e) && gate == Step(g, e)
    }

    /** Records the next event ahead of the updates that perform it. */
    ghost method Record(e: Event)
      requires trail.LeadsTo(limit, maxWaiting, gate) && Enabled(gate, e)
      modifies this`trail
      ensures trail == old(trail).Append(gate, e)
      ensures trail.LeadsTo(limit, maxWaiting, Step(gate, e)) && Distinct(Step(gate, e))
    {
      trail := trail.Append(gate, e);
      TrailInv(trail, limit, maxWaiting, Step(gate, e));
    }

    constructor (limit: int, maxWaiting: int)
      requires 1 <= limit && 0 <= maxWaiting
      ensures Valid() && gate == Empty(limit, maxWaiting) && Repr == {}
    {
      this.limit, this.maxWaiting := limit, maxWaiting;
      active, profile, waiting, futures, next := 0, None, [], map[], 0;
      gate, leases, Repr := Empty(limit, maxWaiting), map[], {};
      trail := Trail([Empty(limit, maxWaiting)], []);
    }

    /** Null stands for the ValueError raised for limits no queue can have. */
    static method Create(limit: int, maxWaiting: int, timeout: real) returns (q: AdmissionQueue?)
      ensures (q == null) == (limit < 1 || maxWaiting < 0 || timeout <= 0.0)
      ensures q != null ==> fresh(q) && q.Valid() && q.gate == Empty(limit, maxWaiting)
    {
      if limit < 1 || maxWaiting < 0 || timeout <= 0.0 {
        return null;
      }
      q := new AdmissionQueue(limit, maxWaiting);
    }

    /** The bookkeeping of a release, before it promotes. */
    method TakeBack(l: Lease)
      requires Linked() && Issues(l) && l.ticket in gate.leases
      modifies this`active, this`profile, this`gate, l`released
      ensures Linked() && l.released && gate == Return(old(gate), l.ticket)
    {
      l.released := true;
      active := active - 1;
      if active == 0 {
        profile := None;
      }
      gate := Return(gate, l.ticket);
    }

    method GrantLease(p: Profile, ghost t: Ticket) returns (l: Lease)
      modifies this`active, this`profile, this`leases, this`Repr
      ensures fresh(l) && l.queue == this && l.ticket == t && !l.released
      ensures active == old(active) + 1 && profile == Some(p)
      ensures leases == old(leases)[t := l] && Repr == old(Repr) + {l}
    {
      active := active + 1;
      profile := Some(p);
      l := new Lease(this, t);
      leases := leases[t := l];
      Repr := Repr + {l};
    }

    method PromoteHead()
      requires Linked() && waiting != [] && Distinct(gate) && waiting[0].ticket !in gate.doomed
      modifies this`active, this`profile, this`waiting, this`futures, this`leases, this`Repr, this`gate
      ensures Linked() && Keeps(old(leases)) && Distinct(gate)
      ensures fresh(Repr - old(Repr))
      ensures gate == T.PromoteOne(old(gate))
    {
      PromoteDistinct(gate);
      T.TicketsPop(waiting);
      var e := waiting[0];
      waiting := waiting[1..];
      var l := GrantLease(e.profile, e.ticket);
      PromoteFutures(gate, futures, old(leases), l);
      futures := futures[e.ticket := Granted(l)];
      gate := T.PromoteOne(gate);
    }

    method DropHead()
      requires Linked() && waiting != [] && Distinct(gate)
      modifies this`waiting, this`gate
      ensures Linked() && Distinct(gate)
      ensures gate == old(gate).(waiting := old(waiting)[1..])
    {
      T.TicketsPop(waiting);
      waiting := waiting[1..];
      gate := gate.(waiting := waiting);
    }

    /** Grants the head while it may be granted, dropping entries already cancelled. */
    method Promote()
      requires Linked() && Distinct(gate)
      modifies this`active, this`profile, this`waiting, this`futures, this`leases, this`Repr, this`gate
      ensures Linked() && Keeps(old(leases))
      ensures fresh(Repr - old(Repr))
      ensures gate == AdmissionSpec.Promote(old(gate)) && Distinct(gate)
    {
      while waiting != [] && active < limit
        invariant Linked() && Keeps(old(leases)) && Distinct(gate)
        invariant fresh(Repr - old(Repr))
        invariant AdmissionSpec.Promote(gate) == AdmissionSpec.Promote(old(gate))
        decreases |waiting|
      {
        FutureOfHead(gate, futures, leases);
        if futures[waiting[0].ticket].Done() {
          DropHead();
          continue;
        }
        if active != 0 && profile != Some(waiting[0].profile) {
          break;
        }
        PromoteHead();
      }
    }

    /** `acquire` up to its first suspension; Rejected is QueueFull. */
    method Acquire(p: Profile) returns (r: Arrival)
      requires Valid()
      modifies this
      ensures Valid() && Keeps(old(leases)) && fresh(Repr - old(Repr))
      ensures Took(old(trail), old(gate), Arrive(p))
      ensures r.Admitted? == FastPath(old(gate), p)
      ensures r.Rejected? == (!FastPath(old(gate), p) && |old(waiting)| >= maxWaiting)
      ensures r.Admitted? ==> Issues(r.lease) && r.lease.ticket == old(next)
    {
      Record(Arrive(p));
      r := Enter(p);
    }

    method Enter(p: Profile) returns (r: Arrival)
      requires Linked() && Distinct(gate)
      modifies this`active, this`profile, this`waiting, this`futures, this`next, this`leases, this`Repr, this`gate
      ensures Linked() && Keeps(old(leases)) && fresh(Repr - old(Repr))
      ensures gate == AdmissionSpec.Acquire(old(gate), p)
      ensures r.Admitted? == FastPath(old(gate), p)
      ensures r.Rejected? == (!FastPath(old(gate), p) && |old(waiting)| >= maxWaiting)
      ensures r.Admitted? ==> Issues(r.lease) && r.lease.ticket == old(next)
    {
      if waiting == [] && active < limit && (active == 0 || profile == Some(p)) {
        var l := Admit(p);
        return Admitted(l);
      }
      if |waiting| >= maxWaiting {
        Reject();
        return Rejected;
      }
      Enqueue(p);
      return Queued;
    }

    method Admit(p: Profile) returns (l: Lease)
      requires Linked() && Distinct(gate)
      modifies this`active, this`profile, this`next, this`leases, this`Repr, this`gate
      ensures Linked() && Keeps(old(leases)) && Repr == old(Repr) + {l} && fresh(l)
      ensures Issues(l) && l.ticket == old(next)
      ensures gate == Grant(old(gate).(next := old(next) + 1), old(next), p)
    {
      l := GrantLease(p, next);
      gate := Grant(gate.(next := next + 1), next, p);
      next := next + 1;
    }

    method Reject()
      requires Linked()
      modifies this`next, this`gate
      ensures Linked() && gate == old(gate).(next := old(next) + 1, turned := old(gate).turned + {old(next)})
    {
      gate := gate.(next := next + 1, turned := gate.turned + {next});
      next := next + 1;
    }

    method Enqueue(p: Profile)
      requires Linked() && Distinct(gate)
      modifies this`waiting, this`futures, this`next, this`gate
      ensures Linked() && old(next) in Tickets(waiting)
      ensures gate == old(gate).(next := old(next) + 1, waiting := old(waiting) + [Entry(old(next), p)])
    {
      T.TicketsPush(waiting, Entry(next, p));
      futures := futures[next := Pending];
      waiting := waiting + [Entry(next, p)];
      gate := gate.(next := next + 1, waiting := waiting);
      next := next + 1;
    }

    /** The task of a granted future resumes: `acquire` returns its lease. */
    method Resume(t: Ticket) returns (l: Lease)
      requires Valid() && t in gate.unseen
      modifies this`gate, this`trail
      ensures Valid() && Took(old(trail), old(gate), Deliver(t))
      ensures Issues(l) && l.ticket == t && Issued(gate, t) && !l.released
    {
      UnseenGranted(trail, limit, maxWaiting, gate, t);
      Record(Deliver(t));
      l := futures[t].lease;
      gate := gate.(unseen := gate.unseen - {t});
    }

    /** A time-out or a cancellation reaches the future; the task has yet to run. */
    method CancelWaiter(t: Ticket)
      requires Valid() && Live(gate, t)
      modifies this`futures, this`gate, this`trail
      ensures Valid() && Took(old(trail), old(gate), Cancel(t))
    {
      Record(Cancel(t));
      CancelPending(t);
      gate := gate.(turned := gate.turned + {t});
    }

    method CancelPending(t: Ticket)
      requires Linked() && Distinct(gate) && (t in gate.doomed || Live(gate, t))
      modifies this`futures, this`gate
      ensures Linked() && Distinct(gate) && gate == old(gate).(doomed := old(gate).doomed + {t})
      ensures Forget(gate, t) == Forget(old(gate), t)
    {
      assert gate.doomed + {t} - {t} == gate.doomed - {t};
      futures := futures[t := Cancelled];
      gate := gate.(doomed := gate.doomed + {t});
    }

    /** The except branch of `acquire`. */
    method Handler(t: Ticket)
      requires Valid() && Enabled(gate, Handle(t))
      modifies this, Repr
      ensures Valid() && Keeps(old(leases)) && fresh(Repr - old(Repr))
      ensures Took(old(trail), old(gate), Handle(t))
    {
      if t in gate.unseen {
        UnseenGranted(trail, limit, maxWaiting, gate, t);
      }
      Record(Handle(t));
      Unwind(t);
    }

    method Unwind(t: Ticket)
      requires Linked() && Distinct(gate) && Enabled(gate, Handle(t))
      requires t in gate.unseen ==> t !in gate.doomed && Distinct(Return(gate.(unseen := gate.unseen - {t}), t))
      modifies Repr, this`active, this`profile, this`waiting, this`futures, this`leases, this`Repr, this`gate
      ensures Linked() && Keeps(old(leases)) && fresh(Repr - old(Repr))
      ensures gate == RunHandler(old(gate), t)
    {
      HandledFuture(gate, futures, leases, t);
      if futures[t].Done() && !futures[t].Cancelled? {
        ReturnRaced(t);
      } else {
        CancelPending(t);
      }
      RemoveAndPromote(t);
    }

    /** The end of the except branch. */
    method RemoveAndPromote(t: Ticket)
      requires Linked() && Distinct(gate)
      modifies Repr, this`active, this`profile, this`waiting, this`futures, this`leases, this`Repr, this`gate
      ensures Linked() && Keeps(old(leases)) && fresh(Repr - old(Repr))
      ensures gate == AdmissionSpec.Promote(Forget(old(gate), t))
    {
      RemoveEntry(t);
      Promote();
    }

    /** The grant won the race against the cancellation: give its lease back. */
    method ReturnRaced(t: Ticket)
      requires Linked() && Distinct(gate) && t in gate.unseen
      requires Distinct(Return(gate.(unseen := gate.unseen - {t}), t))
      modifies Repr, this`active, this`profile, this`waiting, this`futures, this`leases, this`Repr, this`gate
      ensures Linked() && Distinct(gate) && Keeps(old(leases)) && fresh(Repr - old(Repr))
      ensures gate == ReleaseLease(old(gate).(unseen := old(gate).unseen - {t}), t)
    {
      var l := futures[t].lease;
      gate := gate.(unseen := gate.unseen - {t});
      l.GiveBack();
    }

    method RemoveEntry(t: Ticket)
      requires Linked() && Distinct(gate)
      modifies this`waiting, this`gate
      ensures Linked() && Distinct(gate) && gate == Forget(old(gate), t)
    {
      T.WithoutMembers(waiting, t);
      var i := Position(waiting, t);
      if i < |waiting| {
        waiting := waiting[..i] + waiting[i + 1..];
      }
      gate := Forget(gate, t);
    }
  }
}
