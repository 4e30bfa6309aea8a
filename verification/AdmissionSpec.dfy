/**
 The admission gate of gateway/admission.py as a state machine on values.

 Every suspension-free stretch of that file is one step here.  Each call of
 `acquire` takes the next ticket, so tickets number the arrivals; the fields
 `leases`, `unseen`, `doomed`, `log`, `turned` and `next` record what happened to
 them and steer nothing.
 */
module AdmissionSpec {
  import opened Common

  type Ticket = nat

  /** One element of the waiting deque.  Its future is already cancelled exactly
      while the ticket is in `doomed`. */
  datatype Entry = Entry(ticket: Ticket, profile: Profile)

  datatype Gate = Gate(
    limit: int,
    maxWaiting: int,
    active: int,
    profile: Option<Profile>,
    waiting: seq<Entry>,
    leases: map<Ticket, Profile>, // granted and not yet released
    unseen: set<Ticket>,          // granted from the queue, the task has not resumed yet
    doomed: set<Ticket>,          // future cancelled, handler has not run yet
    log: seq<Ticket>,             // every grant, in order
    turned: set<Ticket>,          // rejected, timed out or cancelled
    next: Ticket)

  function Empty(limit: int, maxWaiting: int): Gate {
    Gate(limit, maxWaiting, 0, None, [], map[], {}, {}, [], {}, 0)
  }

  datatype Event =
    | Arrive(profile: Profile)    // acquire, up to its first suspension
    | Deliver(ticket: Ticket)     // the awaiting task resumes with its lease
    | Release(ticket: Ticket)     // a holder calls release (possibly again)
    | Cancel(ticket: Ticket)      // time-out or cancellation reaches the future
    | Handle(ticket: Ticket)      // the except branch of acquire runs

  // ---------------------------------------------------------------- operations

  function Grant(g: Gate, t: Ticket, p: Profile): Gate {
    g.(active := g.active + 1, profile := Some(p), leases := g.leases[t := p], log := g.log + [t])
  }

  function Promote(g: Gate): Gate
    decreases |g.waiting|
  {
    if g.waiting == [] || g.active >= g.limit then g
    else
      var e := g.waiting[0];
      var rest := g.(waiting := g.waiting[1..]);
      if e.ticket in g.doomed then Promote(rest)
      else if g.active != 0 && g.profile != Some(e.profile) then g
      else Promote(Grant(rest, e.ticket, e.profile).(unseen := g.unseen + {e.ticket}))
  }

  /** Lease.release before it promotes; a second call changes nothing. */
  function Return(g: Gate, t: Ticket): Gate {
    g.(active := g.active - 1,
       profile := if g.active - 1 == 0 then None else g.profile,
       leases := g.leases - {t})
  }

  function ReleaseLease(g: Gate, t: Ticket): Gate {
    if t in g.leases then Promote(Return(g, t)) else g
  }

  predicate FastPath(g: Gate, p: Profile) {
    g.waiting == [] && g.active < g.limit && (g.active == 0 || g.profile == Some(p))
  }

  function Acquire(g: Gate, p: Profile): Gate {
    var t := g.next;
    var g' := g.(next := t + 1);
    if FastPath(g, p) then Grant(g', t, p)
    else if |g.waiting| >= g.maxWaiting then g'.(turned := g.turned + {t})
    else g'.(waiting := g.waiting + [Entry(t, p)])
  }

  function CancelFuture(g: Gate, t: Ticket): Gate {
    g.(doomed := g.doomed + {t}, turned := g.turned + {t})
  }

  /** Where ticket `t` waits, or |ws|. */
  function Position(ws: seq<Entry>, t: Ticket): (i: nat)
    ensures i <= |ws| && (i < |ws| ==> ws[i].ticket == t)
    ensures forall j :: 0 <= j < i ==> ws[j].ticket != t
  {
    if ws == [] || ws[0].ticket == t then 0 else 1 + Position(ws[1..], t)
  }

  /** The deque without the entry of ticket `t`, if it is there. */
  function Without(ws: seq<Entry>, t: Ticket): seq<Entry> {
    var i := Position(ws, t);
    if i < |ws| then ws[..i] + ws[i + 1..] else ws
  }

  /** What the handler forgets about its own ticket. */
  function Forget(g: Gate, t: Ticket): Gate {
    g.(turned := g.turned + {t}, doomed := g.doomed - {t}, waiting := Without(g.waiting, t))
  }

  /** The except branch: give back a lease the grant raced in, or cancel the future;
      then drop the entry and promote. */
  function RunHandler(g: Gate, t: Ticket): Gate {
    var g1 := if t in g.unseen then ReleaseLease(g.(unseen := g.unseen - {t}), t) else g;
    Promote(Forget(g1, t))
  }

  // ---------------------------------------------------------------- step relation

  function Tickets(ws: seq<Entry>): set<Ticket> {
    set i | 0 <= i < |ws| :: ws[i].ticket
  }

  /** Waiting, with a future that is still pending. */
  predicate Live(g: Gate, t: Ticket) {
    t in Tickets(g.waiting) && t !in g.doomed
  }

  /** A lease object reaches a caller only by a fast grant or by delivery. */
  predicate Issued(g: Gate, t: Ticket) {
    t in g.log && t !in g.unseen && t !in g.turned
  }

  predicate Enabled(g: Gate, e: Event) {
    match e
    case Arrive(_) => true
    case Deliver(t) => t in g.unseen
    case Release(t) => Issued(g, t)
    case Cancel(t) => Live(g, t)
    case Handle(t) => t in g.unseen || t in g.doomed || Live(g, t)
  }

  function Step(g: Gate, e: Event): Gate {
    match e
    case Arrive(p) => Acquire(g, p)
    case Deliver(t) => g.(unseen := g.unseen - {t})
    case Release(t) => ReleaseLease(g, t)
    case Cancel(t) => CancelFuture(g, t)
    case Handle(t) => RunHandler(g, t)
  }

  /** Every event of the run is enabled where it occurs. */
  predicate Runs(g: Gate, es: seq<Event>)
    decreases |es|
  {
    es == [] || (Enabled(g, es[0]) && Runs(Step(g, es[0]), es[1..]))
  }

  function After(g: Gate, es: seq<Event>): Gate
    decreases |es|
  {
    if es == [] then g else After(Step(g, es[0]), es[1..])
  }

  // ---------------------------------------------------------------- the invariant

  /** `active` counts the unreleased leases, all of the one current profile. */
  ghost predicate Safe(g: Gate) {
    && 1 <= g.limit && 0 <= g.maxWaiting
    && g.active == |g.leases| && g.active <= g.limit
    && (forall t :: t in g.leases ==> g.profile == Some(g.leases[t]))
    && (g.profile == None <==> g.active == 0)
    && |g.waiting| <= g.maxWaiting
  }

  predicate Ascending(s: seq<Ticket>) {
    forall i, j :: 0 <= i < j < |s| ==> s[i] < s[j]
  }

  predicate Sorted(ws: seq<Entry>) {
    forall i, j :: 0 <= i < j < |ws| ==> ws[i].ticket < ws[j].ticket
  }

  ghost predicate Ordered(g: Gate) {
    && Ascending(g.log)
    && Sorted(g.waiting)
    && (forall i, t :: 0 <= i < |g.waiting| && t in g.log ==> t < g.waiting[i].ticket)
    && (forall t :: t in g.log ==> t < g.next)
    && (forall i :: 0 <= i < |g.waiting| ==> g.waiting[i].ticket < g.next)
  }

  /** Where every ticket handed out so far is. */
  ghost predicate Accounted(g: Gate) {
    && (forall t :: t in g.leases ==> t in g.log && t !in g.turned)
    && (forall t :: t in g.unseen ==> t in g.leases)
    && (forall t :: t in g.turned ==> t < g.next)
    && (forall t :: t in g.doomed ==> t in g.turned && t !in g.log)
    && (forall t :: t in Tickets(g.waiting) && t in g.turned ==> t in g.doomed)
    && (forall t: Ticket :: t < g.next ==> t in g.log || t in g.turned || t in Tickets(g.waiting))
  }

  /** What a promotion leaves behind: nobody waits who could be served. */
  predicate Settled(g: Gate) {
    g.waiting == [] || g.active == g.limit
    || (g.waiting[0].ticket !in g.doomed && g.active != 0 && g.profile != Some(g.waiting[0].profile))
  }

  /** Settled, except while a cancelled head waits for its own handler. */
  predicate WorkConserving(g: Gate) {
    && (g.waiting != [] ==> g.active >= 1)
    && (Settled(g) || g.waiting[0].ticket in g.doomed)
  }

  ghost predicate Inv(g: Gate) {
    Safe(g) && Ordered(g) && Accounted(g) && WorkConserving(g)
  }
}
