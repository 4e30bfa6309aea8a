/**
 Gate, requests, swap tasks and the orchestrator together: what runs in the containers
 while a request is served.

 While a swap holds the mutex the world is in flux: it may be seen in any state.  When
 the swap leaves the mutex, its five steps have turned the world it found into the one
 it leaves.
 */
module Fleet {
  import opened Common
  import G = GatewaySpec
  import T = GatewayTheorems
  import V = GatewayServing
  import S = SwapSpec
  import O = OrchestratorSpec
  import R = OrchestratorTheorems

  /** `found` is the world as the swap that holds the mutex found it. */
  datatype Fleet = Fleet(sys: G.System, world: O.World, found: O.World)

  datatype Event = Gateway(event: G.Event) | Flux(world: O.World) | Finish(task: nat, env: O.Env)

  /** The target of a task, if the registry has it. */
  predicate Known(cat: O.Catalog, f: Fleet, task: nat) {
    task < |f.sys.swap.tasks| && f.sys.swap.tasks[task].target in cat.profiles
  }

  function Target(cat: O.Catalog, f: Fleet, task: nat): O.VramProfile
    requires Known(cat, f, task)
  {
    cat.profiles[f.sys.swap.tasks[task].target]
  }

  /** The five steps of the swap that holds the mutex. */
  function Work(cat: O.Catalog, f: Fleet, task: nat, env: O.Env): (O.World, bool)
    requires Known(cat, f, task)
  {
    O.Swap(f.found, cat, f.sys.swap.active, Target(cat, f, task), env)
  }

  predicate Enabled(cat: O.Catalog, f: Fleet, e: Event) {
    match e
    case Gateway(g) => G.Enabled(f.sys, g) && !g.LeaveSwap?
    case Flux(_) => f.sys.swap.lock.Some?
    case Finish(task, env) =>
      Known(cat, f, task) && G.Enabled(f.sys, G.LeaveSwap(task, Work(cat, f, task, env).1))
  }

  function Step(cat: O.Catalog, f: Fleet, e: Event): Fleet
    requires Enabled(cat, f, e)
  {
    match e
    case Gateway(g) =>
      var sys := G.Step(f.sys, g);
      f.(sys := sys, found := if f.sys.swap.lock.None? && sys.swap.lock.Some? then f.world else f.found)
    case Flux(world) => f.(world := world)
    case Finish(task, env) =>
      var (world, ok) := Work(cat, f, task, env);
      f.(sys := G.Step(f.sys, G.LeaveSwap(task, ok)), world := world)
  }

  /** Nobody abandons a swap wait; a swap that did its work ran its five steps, and the
      stops it sent took effect. */
  predicate Sound(cat: O.Catalog, f: Fleet, e: Event)
    requires Enabled(cat, f, e)
  {
    match e
    case Gateway(g) => !g.Abandon?
    case Flux(_) => true
    case Finish(task, env) =>
      Work(cat, f, task, env).1 && R.Effective(cat, f.sys.swap.active, Target(cat, f, task), env)
  }

  predicate Runs(cat: O.Catalog, f: Fleet, es: seq<Event>)
    decreases |es|
  {
    es == [] || (Enabled(cat, f, es[0]) && Sound(cat, f, es[0]) && Runs(cat, Step(cat, f, es[0]), es[1..]))
  }

  function After(cat: O.Catalog, f: Fleet, es: seq<Event>): Fleet
    requires Runs(cat, f, es)
    decreases |es|
  {
    if es == [] then f else After(cat, Step(cat, f, es[0]), es[1..])
  }

  ghost predicate WellFormed(cat: O.Catalog) {
    R.NamesIdentify(cat) && forall p | p in cat.profiles :: cat.profiles[p].key == p
  }

  /** The world between swaps. */
  function Settled(f: Fleet): O.World {
    if f.sys.swap.lock.Some? then f.found else f.world
  }

  /** Requests on the active profile, and exactly that profile up. */
  ghost predicate InOrder(cat: O.Catalog, f: Fleet) {
    V.Calm(f.sys) && R.Exact(Settled(f), cat, f.sys.swap.active)
  }

  /** Only a swap that leaves the mutex changes the active profile. */
  lemma ActiveStays(s: G.System, e: G.Event)
    requires G.Enabled(s, e) && !e.LeaveSwap?
    ensures G.Step(s, e).swap.active == s.swap.active
    ensures s.swap.lock.Some? ==> G.Step(s, e).swap.lock == s.swap.lock
  {
  }

  lemma WorkLands(cat: O.Catalog, f: Fleet, task: nat, env: O.Env)
    requires WellFormed(cat) && Known(cat, f, task) && R.Exact(f.found, cat, f.sys.swap.active)
    requires Work(cat, f, task, env).1 && R.Effective(cat, f.sys.swap.active, Target(cat, f, task), env)
    ensures R.Exact(Work(cat, f, task, env).0, cat, Some(f.sys.swap.tasks[task].target))
  {
    R.SwapExact(f.found, cat, f.sys.swap.active, Target(cat, f, task), env);
  }

  lemma LeaveClaims(w: S.Swap, task: nat)
    requires S.Enabled(w, S.Leave(task, true))
    ensures var w' := S.LeaveLock(w, task, true); w'.lock == None && w'.active == Some(w.tasks[task].target)
  {
  }

  lemma FinishInOrder(cat: O.Catalog, f: Fleet, task: nat, env: O.Env)
    requires WellFormed(cat) && InOrder(cat, f)
    requires Enabled(cat, f, Finish(task, env)) && Sound(cat, f, Finish(task, env))
    ensures InOrder(cat, Step(cat, f, Finish(task, env)))
  {
    WorkLands(cat, f, task, env);
    LeaveClaims(f.sys.swap, task);
    FinishCalm(f.sys, task);
    var f' := Step(cat, f, Finish(task, env));
    assert f'.world == Work(cat, f, task, env).0 && f'.sys == G.Step(f.sys, G.LeaveSwap(task, true));
    assert f'.sys.swap == S.LeaveLock(f.sys.swap, task, true);
  }

  lemma FinishCalm(s: G.System, task: nat)
    requires V.Calm(s) && G.Enabled(s, G.LeaveSwap(task, true))
    ensures V.Calm(G.Step(s, G.LeaveSwap(task, true)))
  {
    V.StepCalm(s, G.LeaveSwap(task, true));
  }

  lemma StepInOrder(cat: O.Catalog, f: Fleet, e: Event)
    requires WellFormed(cat) && InOrder(cat, f) && Enabled(cat, f, e) && Sound(cat, f, e)
    ensures InOrder(cat, Step(cat, f, e))
  {
    match e
    case Gateway(g) =>
      V.StepCalm(f.sys, g);
      ActiveStays(f.sys, g);
    case Flux(_) =>
    case Finish(task, env) => FinishInOrder(cat, f, task, env);
  }

  lemma {:induction false} RunInOrder(cat: O.Catalog, f: Fleet, es: seq<Event>)
    requires WellFormed(cat) && InOrder(cat, f) && Runs(cat, f, es)
    ensures InOrder(cat, After(cat, f, es))
    decreases |es|
  {
    if es != [] {
      StepInOrder(cat, f, es[0]);
      RunInOrder(cat, Step(cat, f, es[0]), es[1..]);
    }
  }

  /** Whenever a request is served or streamed to and no swap is at work, exactly the
      exec-managed models of the profile it was admitted for are running, the containers
      of that profile are READY, and no other tracked container is up. */
  lemma ServedByItsModels(cat: O.Catalog, f0: Fleet, es: seq<Event>, t: G.Ticket)
    requires WellFormed(cat) && T.Starts(f0.sys) && f0.sys.longPolling
    requires R.Exact(f0.world, cat, f0.sys.swap.active) && Runs(cat, f0, es)
    requires var s := After(cat, f0, es).sys;
      t in s.phases && V.BeingServed(s.phases[t]) && s.swap.lock == None
    ensures var f := After(cat, f0, es);
      && t in f.sys.gate.leases
      && var p := Some(f.sys.gate.leases[t]);
         f.world.serving == O.ExecOf(O.ModelsOf(cat, p)) && R.Exact(f.world, cat, p)
  {
    T.StartInv(f0.sys);
    RunInOrder(cat, f0, es);
    assert V.OnActive(After(cat, f0, es).sys, t);
  }
}
