/**
 The five steps of switch_profile in gateway/orchestrator.py, as functions on the
 tracked container states and on the set of exec-managed models whose serve process is
 running.  What the environment decides, from stops that fail to health checks that
 time out, is in `Env`.
 */
module OrchestratorSpec {
  import opened Common

  datatype Engine = Vllm | RayVllm | SparkCluster

  /** A catalogue entry: several models may name the same container. */
  datatype Model = Model(name: string, container: string, engine: Engine)

  datatype VramProfile = VramProfile(key: Profile, models: seq<Model>, skipVramCheck: bool)

  /** PROFILES and ALL_MODELS. */
  datatype Catalog = Catalog(profiles: map<Profile, VramProfile>, allModels: seq<Model>)

  datatype State = Starting | Ready | Stopping | Stopped | Paused | Error

  datatype World = World(states: map<string, State>, serving: set<Model>)

  datatype StartResult = Started | Failed(marked: bool, running: bool)

  datatype WaitResult = AllHealthy | TimesOut(healthy: nat) | Raises(healthy: nat)

  /** What happens to the stops of one teardown.  A workload that fails to stop raises,
      and the error is logged.  An exec-managed model may survive its stop in silence: a
      rank was out of reach, or the Ray head was missing.  An exec-managed stop that
      raises ends the teardown; `before` is the part of the tracked containers that the
      loop has come to until then. */
  datatype Stops = Stops(
    failing: set<string>,
    surviving: set<Model>,
    raising: Option<Model>,
    before: set<string>)

  datatype Env = Env(
    pauses: bool,                  // strategy and backend agree on pausing
    first: Stops,                  // the teardown of step 1
    enoughVram: bool,
    second: Stops,                 // the forced cleanup of step 2
    starts: seq<StartResult>,      // per model of the target
    wait: WaitResult)

  /** Processes inside a container that the gateway never creates or removes. */
  predicate Exec(m: Model) { m.engine == RayVllm || m.engine == SparkCluster }

  function ExecOf(models: seq<Model>): set<Model> {
    set m | m in models && Exec(m)
  }

  function Containers(models: seq<Model>): set<string> {
    set m | m in models :: m.container
  }

  function Names(models: seq<Model>): set<string> {
    set m | m in models :: m.name
  }

  /** The models of the profile marked active, none if it is not in the registry. */
  function ModelsOf(cat: Catalog, active: Option<Profile>): seq<Model> {
    if active.Some? && active.value in cat.profiles then cat.profiles[active.value].models else []
  }

  // ---------------------------------------------------------------- step 1: teardown

  /** Exec-managed models of the outgoing profile, by name: what stops first. */
  function Outgoing(current: seq<Model>, target: seq<Model>): set<Model> {
    set m | m in current && Exec(m) && m.name !in Names(target)
  }

  /** What is gone after stops were sent to `out`. */
  function Killed(out: set<Model>, stops: Stops): set<Model> {
    out - stops.surviving
  }

  function StopOutgoing(w: World, out: set<Model>, stops: Stops): World {
    var cs := set m | m in out :: m.container;
    World(map c | c in w.states.Keys + cs :: if c in cs then Stopped else w.states[c], w.serving - Killed(out, stops))
  }

  /** The model whose stop raises, if it is among these. */
  predicate RaisesIn(stops: Stops, ms: set<Model>) {
    stops.raising.Some? && stops.raising.value in ms
  }

  /** How many models the first loop gets through. */
  function Handled(current: seq<Model>, target: seq<Model>, stops: Stops): (n: nat)
    ensures n <= |current|
    ensures n < |current| ==> RaisesIn(stops, Outgoing([current[n]], target))
    ensures forall i :: 0 <= i < n ==> !RaisesIn(stops, Outgoing([current[i]], target))
  {
    if current == [] || RaisesIn(stops, Outgoing([current[0]], target)) then 0
    else 1 + Handled(current[1..], target, stops)
  }

  /** The first loop of the teardown; false when a stop raises. */
  function StopCurrent(w: World, current: seq<Model>, target: seq<Model>, stops: Stops): (World, bool) {
    var n := Handled(current, target, stops);
    var w' := StopOutgoing(w, Outgoing(current[..n], target), stops);
    if n < |current| then (w'.(serving := w'.serving - Killed({current[n]}, stops)), false) else (w', true)
  }

  /** The first catalogue entry with this container. */
  function ModelFor(all: seq<Model>, container: string): Option<Model> {
    if all == [] then None
    else if all[0].container == container then Some(all[0])
    else ModelFor(all[1..], container)
  }

  predicate Up(s: State) { s == Ready || s == Starting }

  /** Tracked containers the second loop of the teardown takes down. */
  function Torn(w: World, preserve: set<string>): set<string> {
    set c | c in w.states && c !in preserve && Up(w.states[c])
  }

  /** The catalogue entries stopped through their container. */
  function TornModels(cat: Catalog, torn: set<string>): set<Model> {
    set c | c in torn && ModelFor(cat.allModels, c).Some? && Exec(ModelFor(cat.allModels, c).value) :: ModelFor(cat.allModels, c).value
  }

  function TornState(cat: Catalog, c: string, pauses: bool, stops: Stops): State {
    var m := ModelFor(cat.allModels, c);
    if m.Some? && Exec(m.value) then Stopped
    else if c in stops.failing then Stopping
    else if pauses then Paused
    else Stopped
  }

  function TearSome(w: World, cat: Catalog, torn: set<string>, pauses: bool, stops: Stops): World {
    World(map c | c in w.states :: if c in torn then TornState(cat, c, pauses, stops) else w.states[c],
          w.serving - Killed(TornModels(cat, torn), stops))
  }

  /** The tracked container at which the second loop raises, if it comes to it. */
  function RaisesAt(cat: Catalog, stops: Stops): Option<string> {
    match stops.raising
    case None => None
    case Some(m) =>
      if Exec(m) && ModelFor(cat.allModels, m.container) == Some(m) then Some(m.container) else None
  }

  /** The second loop of the teardown; false when a stop raises. */
  function TearTracked(w: World, cat: Catalog, preserve: set<string>, pauses: bool, stops: Stops): (World, bool) {
    var at := RaisesAt(cat, stops);
    if at.Some? && at.value in Torn(w, preserve) then
      var w' := TearSome(w, cat, Torn(w, preserve) * stops.before - {at.value}, pauses, stops);
      (World(w'.states[at.value := Stopping], w'.serving - Killed({stops.raising.value}, stops)), false)
    else (TearSome(w, cat, Torn(w, preserve), pauses, stops), true)
  }

  function Teardown(w: World, cat: Catalog, active: Option<Profile>, target: seq<Model>, pauses: bool, stops: Stops): (World, bool) {
    var (w', ok) := StopCurrent(w, ModelsOf(cat, active), target, stops);
    if !ok then (w', false) else TearTracked(w', cat, Containers(target), pauses, stops)
  }

  // ---------------------------------------------------------------- steps 2 to 5

  function StartModel(w: World, m: Model, r: StartResult): World {
    World(w.states[m.container := if r.Failed? && r.marked then Error else Starting],
          if !Exec(m) then w.serving
          else if r == Started || (r.Failed? && r.running) then w.serving + {m}
          else w.serving - {m})
  }

  function ResultAt(rs: seq<StartResult>, i: nat): StartResult {
    if i < |rs| then rs[i] else Started
  }

  /** Starts models from index i on; false when one raises. */
  function StartFrom(w: World, models: seq<Model>, rs: seq<StartResult>, i: nat): (World, bool)
    requires i <= |models|
    decreases |models| - i
  {
    if i == |models| then (w, true)
    else
      var w' := StartModel(w, models[i], ResultAt(rs, i));
      if ResultAt(rs, i).Failed? then (w', false) else StartFrom(w', models, rs, i + 1)
  }

  function MarkReady(w: World, models: seq<Model>): World {
    w.(states := map c | c in w.states.Keys + Containers(models) :: if c in Containers(models) then Ready else w.states[c])
  }

  /** After a time-out every target container still STARTING is promoted. */
  function PromoteStarting(w: World, models: seq<Model>): World {
    w.(states := map c | c in w.states ::
      if c in Containers(models) && w.states[c] == Starting then Ready else w.states[c])
  }

  /** Waiting marks the healthy ones READY; false when it raises other than by time-out. */
  function WaitReady(w: World, models: seq<Model>, wait: WaitResult): (World, bool) {
    match wait
    case AllHealthy => (MarkReady(w, models), true)
    case TimesOut(k) =>
      if k >= |models| then (MarkReady(w, models), true)
      else (PromoteStarting(MarkReady(w, models[..k]), models), true)
    case Raises(k) =>
      if k >= |models| then (MarkReady(w, models), true)
      else (MarkReady(w, models[..k]), false)
  }

  /** Whether step 2 runs the teardown again. */
  predicate CleansUp(target: VramProfile, env: Env) {
    !target.skipVramCheck && !env.enoughVram
  }

  /** Steps 1 and 2; false when a stop raises. */
  function MakeRoom(w: World, cat: Catalog, active: Option<Profile>, target: VramProfile, env: Env): (World, bool) {
    var (w', ok) := Teardown(w, cat, active, target.models, env.pauses, env.first);
    if ok && CleansUp(target, env) then Teardown(w', cat, active, target.models, false, env.second) else (w', ok)
  }

  /** Steps 1 to 4; the flag says whether the profile is claimed in step 5. */
  function Swap(w: World, cat: Catalog, active: Option<Profile>, target: VramProfile, env: Env): (World, bool) {
    var (w2, room) := MakeRoom(w, cat, active, target, env);
    if !room then (w2, false)
    else
      var (w3, started) := StartFrom(w2, target.models, env.starts, 0);
      if !started then (w3, false) else WaitReady(w3, target.models, env.wait)
  }
}
