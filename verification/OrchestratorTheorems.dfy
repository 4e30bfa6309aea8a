/**
 A profile swap leaves exactly the target running, over every run of swaps that
 complete; what a failed swap can leave behind; and what the second teardown is worth.
 */
module OrchestratorTheorems {
  import opened Common
  import opened OrchestratorSpec

  // ---------------------------------------------------------------- steps 3 and 4

  lemma {:induction false} StartedStates(w: World, models: seq<Model>, rs: seq<StartResult>, i: nat)
    requires i <= |models| && StartFrom(w, models, rs, i).1
    ensures var w' := StartFrom(w, models, rs, i).0;
      && w'.states.Keys == w.states.Keys + Containers(models[i..])
      && (forall c :: c in w'.states ==> w'.states[c] == if c in Containers(models[i..]) then Starting else w.states[c])
      && w'.serving == w.serving + ExecOf(models[i..])
    decreases |models| - i
  {
    if i < |models| {
      var w1 := StartModel(w, models[i], ResultAt(rs, i));
      StartedStates(w1, models, rs, i + 1);
      assert models[i..] == [models[i]] + models[i + 1..];
      assert Containers(models[i..]) == {models[i].container} + Containers(models[i + 1..]);
      assert ExecOf(models[i..]) == ExecOf([models[i]]) + ExecOf(models[i + 1..]);
      assert ExecOf([models[i]]) == if Exec(models[i]) then {models[i]} else {};
    }
  }

  /** Waiting ends with every target container READY, time-out or not. */
  lemma WaitedStates(w: World, models: seq<Model>, wait: WaitResult)
    requires WaitReady(w, models, wait).1
    requires forall c :: c in Containers(models) ==> c in w.states && w.states[c] == Starting
    ensures WaitReady(w, models, wait).0 == MarkReady(w, models)
  {
    if wait.TimesOut? && wait.healthy < |models| {
      var k := wait.healthy;
      var w1 := MarkReady(w, models[..k]);
      assert Containers(models[..k]) <= Containers(models);
      assert w1.states.Keys == w.states.Keys;
      assert PromoteStarting(w1, models).states == MarkReady(w, models).states;
    }
  }

  // ---------------------------------------------------------------- steps 1 and 2

  /** What the first loop sends a stop to: all outgoing models, unless one raises. */
  function Reached(current: seq<Model>, target: seq<Model>, stops: Stops): set<Model> {
    var n := Handled(current, target, stops);
    Outgoing(current[..if n < |current| then n + 1 else n], target)
  }

  lemma OutgoingSnoc(current: seq<Model>, i: nat, target: seq<Model>)
    requires i < |current|
    ensures Outgoing(current[..i + 1], target) == Outgoing(current[..i], target) + Outgoing([current[i]], target)
  {
    assert current[..i + 1] == current[..i] + [current[i]];
  }

  lemma StopCurrentServing(w: World, current: seq<Model>, target: seq<Model>, stops: Stops)
    ensures StopCurrent(w, current, target, stops).0.serving == w.serving - Killed(Reached(current, target, stops), stops)
    ensures StopCurrent(w, current, target, stops).1 ==>
      Reached(current, target, stops) == Outgoing(current, target)
  {
    var n := Handled(current, target, stops);
    if n < |current| {
      OutgoingSnoc(current, n, target);
      assert Outgoing([current[n]], target) == {current[n]};
    } else {
      assert current[..n] == current;
    }
  }

  /** A teardown in which no stop raised, in closed form. */
  lemma TeardownDone(w: World, cat: Catalog, active: Option<Profile>, target: seq<Model>, pauses: bool, stops: Stops)
    requires Teardown(w, cat, active, target, pauses, stops).1
    ensures var w0 := StopOutgoing(w, Outgoing(ModelsOf(cat, active), target), stops);
      Teardown(w, cat, active, target, pauses, stops).0 == TearSome(w0, cat, Torn(w0, Containers(target)), pauses, stops)
  {
    var current := ModelsOf(cat, active);
    assert current[..|current|] == current;
  }

  /** What one teardown does, container by container. */
  lemma TeardownStates(w: World, cat: Catalog, active: Option<Profile>, target: seq<Model>, pauses: bool, stops: Stops)
    requires Teardown(w, cat, active, target, pauses, stops).1
    ensures var w' := Teardown(w, cat, active, target, pauses, stops).0;
      && w.states.Keys <= w'.states.Keys
      && (forall c :: c in w'.states && c !in Containers(target) ==> !Up(w'.states[c]))
      && (forall m :: m in Outgoing(ModelsOf(cat, active), target) ==>
            m.container in w'.states && w'.states[m.container] == Stopped)
  {
    var out := Outgoing(ModelsOf(cat, active), target);
    TeardownDone(w, cat, active, target, pauses, stops);
    StoppedStates(w, out, stops);
    TornStates(StopOutgoing(w, out, stops), cat, Containers(target), pauses, stops);
  }

  lemma StoppedStates(w: World, out: set<Model>, stops: Stops)
    ensures var w0 := StopOutgoing(w, out, stops);
      && w.states.Keys <= w0.states.Keys
      && forall m :: m in out ==> m.container in w0.states && w0.states[m.container] == Stopped
  {
  }

  lemma TornStates(w0: World, cat: Catalog, preserve: set<string>, pauses: bool, stops: Stops)
    ensures var w' := TearSome(w0, cat, Torn(w0, preserve), pauses, stops);
      && w'.states.Keys == w0.states.Keys
      && (forall c :: c in w'.states && c !in preserve ==> !Up(w'.states[c]))
      && (forall c :: c in w0.states && w0.states[c] == Stopped ==> w'.states[c] == Stopped)
  {
  }

  /** Where a teardown has been through, the second loop of the next one is idle. */
  lemma TearAgain(w1: World, cat: Catalog, preserve: set<string>, pauses: bool, stops: Stops)
    requires forall c :: c in w1.states && c !in preserve ==> !Up(w1.states[c])
    ensures TearTracked(w1, cat, preserve, pauses, stops) == (w1, true)
  {
    assert Torn(w1, preserve) == {};
    assert TornModels(cat, {}) == {};
    assert Killed({}, stops) == {} && w1.serving - {} == w1.serving;
    assert TearSome(w1, cat, {}, pauses, stops).states == w1.states;
  }

  /** ... and the first one changes what serves, and no state. */
  lemma StopAgain(w1: World, current: seq<Model>, target: seq<Model>, stops: Stops)
    requires forall m :: m in Outgoing(current, target) ==> m.container in w1.states && w1.states[m.container] == Stopped
    ensures StopCurrent(w1, current, target, stops).0.states == w1.states
  {
    var n := Handled(current, target, stops);
    var out := Outgoing(current[..n], target);
    assert out <= Outgoing(current, target);
    assert StopOutgoing(w1, out, stops).states == w1.states;
  }

  /** The forced deep cleanup of the memory check, raising or not: it touches no container
      state, and stops what survived the first teardown of the outgoing models it comes to.
      So it changes the world if and only if one of those is stopped now. */
  lemma DeepCleanupIff(w: World, cat: Catalog, active: Option<Profile>, target: seq<Model>,
                       pauses: bool, first: Stops, again: bool, second: Stops)
    requires Teardown(w, cat, active, target, pauses, first).1
    ensures var w1 := Teardown(w, cat, active, target, pauses, first).0;
      var reached := Reached(ModelsOf(cat, active), target, second);
      var w2 := Teardown(w1, cat, active, target, again, second).0;
      && w2 == World(w1.states, w1.serving - Killed(reached, second))
      && (w2 != w1 <==> exists m :: m in reached && m in w1.serving && m !in second.surviving)
  {
    var w1 := Teardown(w, cat, active, target, pauses, first).0;
    TeardownStates(w, cat, active, target, pauses, first);
    SecondTeardown(w1, cat, active, target, again, second);
  }

  lemma SecondTeardown(w1: World, cat: Catalog, active: Option<Profile>, target: seq<Model>, pauses: bool, stops: Stops)
    requires forall c :: c in w1.states && c !in Containers(target) ==> !Up(w1.states[c])
    requires forall m :: m in Outgoing(ModelsOf(cat, active), target) ==>
      m.container in w1.states && w1.states[m.container] == Stopped
    ensures Teardown(w1, cat, active, target, pauses, stops).0
         == World(w1.states, w1.serving - Killed(Reached(ModelsOf(cat, active), target, stops), stops))
    ensures Teardown(w1, cat, active, target, pauses, stops).1 ==>
      Reached(ModelsOf(cat, active), target, stops) == Outgoing(ModelsOf(cat, active), target)
  {
    var current := ModelsOf(cat, active);
    StopAgain(w1, current, target, stops);
    StopCurrentServing(w1, current, target, stops);
    TearAgain(StopCurrent(w1, current, target, stops).0, cat, Containers(target), pauses, stops);
  }

  // ---------------------------------------------------------------- one swap

  /** The models that the teardown of step 1 sends a stop to. */
  function Asked(w: World, cat: Catalog, active: Option<Profile>, target: VramProfile, env: Env): set<Model> {
    var out := Outgoing(ModelsOf(cat, active), target.models);
    out + TornModels(cat, Torn(StopOutgoing(w, out, env.first), Containers(target.models)))
  }

  /** The models that steps 1 and 2 stop: asked and not surviving, or asked again in a
      cleanup and not surviving that. */
  function Gone(w: World, cat: Catalog, active: Option<Profile>, target: VramProfile, env: Env): set<Model> {
    Killed(Asked(w, cat, active, target, env), env.first)
    + if CleansUp(target, env) then Killed(Outgoing(ModelsOf(cat, active), target.models), env.second) else {}
  }

  lemma RoomMade(w: World, cat: Catalog, active: Option<Profile>, target: VramProfile, env: Env)
    requires MakeRoom(w, cat, active, target, env).1
    ensures var w1 := Teardown(w, cat, active, target.models, env.pauses, env.first).0;
      MakeRoom(w, cat, active, target, env).0 == World(w1.states, w.serving - Gone(w, cat, active, target, env))
  {
    var out := Outgoing(ModelsOf(cat, active), target.models);
    var w1 := Teardown(w, cat, active, target.models, env.pauses, env.first).0;
    TeardownDone(w, cat, active, target.models, env.pauses, env.first);
    assert w1.serving == w.serving - Killed(Asked(w, cat, active, target, env), env.first);
    if CleansUp(target, env) {
      TeardownStates(w, cat, active, target.models, env.pauses, env.first);
      SecondTeardown(w1, cat, active, target.models, false, env.second);
    }
  }

  /** A swap that ran its five steps: what serves, and every container's state. */
  lemma CompletedSwap(w: World, cat: Catalog, active: Option<Profile>, target: VramProfile, env: Env)
    requires Swap(w, cat, active, target, env).1
    ensures var w' := Swap(w, cat, active, target, env).0;
      && w'.serving == w.serving - Gone(w, cat, active, target, env) + ExecOf(target.models)
      && (forall m :: m in target.models ==> m.container in w'.states && w'.states[m.container] == Ready)
      && (forall c :: c in w'.states && c !in Containers(target.models) ==> !Up(w'.states[c]))
  {
    RoomMade(w, cat, active, target, env);
    TeardownStates(w, cat, active, target.models, env.pauses, env.first);
    var w2 := MakeRoom(w, cat, active, target, env).0;
    StartedStates(w2, target.models, env.starts, 0);
    assert target.models[0..] == target.models;
    WaitedStates(StartFrom(w2, target.models, env.starts, 0).0, target.models, env.wait);
  }

  /** Model names identify catalogue entries across profiles. */
  ghost predicate NamesIdentify(cat: Catalog) {
    forall p, q, m, n ::
      (p in cat.profiles && q in cat.profiles && m in cat.profiles[p].models && n in cat.profiles[q].models && m.name == n.name)
      ==> m == n
  }

  ghost predicate Registered(cat: Catalog, target: VramProfile) {
    target.key in cat.profiles && cat.profiles[target.key] == target
  }

  /** Exactly the active profile is up: its exec-managed models serve and nothing else
      does, its containers are READY, and no other tracked container is up. */
  ghost predicate Exact(w: World, cat: Catalog, active: Option<Profile>) {
    && w.serving == ExecOf(ModelsOf(cat, active))
    && (forall m :: m in ModelsOf(cat, active) ==> m.container in w.states && w.states[m.container] == Ready)
    && (forall c :: c in w.states && c !in Containers(ModelsOf(cat, active)) ==> !Up(w.states[c]))
  }

  /** For any world: a completed swap leaves exactly the target running if and only if
      every process serving before is the target's own or was stopped.  A process is
      stopped if it is outgoing, or its container's catalogue model where that container is
      torn down, and does not survive the stop; or outgoing, with a cleanup it does not
      survive. */
  lemma ExactIff(w: World, cat: Catalog, active: Option<Profile>, target: VramProfile, env: Env)
    requires Registered(cat, target) && Swap(w, cat, active, target, env).1
    ensures Exact(Swap(w, cat, active, target, env).0, cat, Some(target.key)) <==>
      forall m :: m in w.serving ==>
        || m in ExecOf(target.models)
        || (m in Asked(w, cat, active, target, env) && m !in env.first.surviving)
        || (m in Outgoing(ModelsOf(cat, active), target.models) && CleansUp(target, env) && m !in env.second.surviving)
  {
    CompletedSwap(w, cat, active, target, env);
    assert ModelsOf(cat, Some(target.key)) == target.models;
    var left := w.serving - Gone(w, cat, active, target, env);
    assert Swap(w, cat, active, target, env).0.serving == left + ExecOf(target.models);
    assert left + ExecOf(target.models) == ExecOf(target.models) <==> left <= ExecOf(target.models);
  }

  /** Some stop of each outgoing model took effect. */
  predicate Effective(cat: Catalog, active: Option<Profile>, target: VramProfile, env: Env) {
    forall m | m in Outgoing(ModelsOf(cat, active), target.models) ::
      m !in env.first.surviving || (CleansUp(target, env) && m !in env.second.surviving)
  }

  /** Despite shared containers: from exactly the active profile's models, a completed swap
      ends at exactly the target's if and only if each outgoing model's stop took effect. */
  lemma SwapExact(w: World, cat: Catalog, active: Option<Profile>, target: VramProfile, env: Env)
    requires NamesIdentify(cat) && Registered(cat, target)
    requires w.serving == ExecOf(ModelsOf(cat, active))
    requires Swap(w, cat, active, target, env).1
    ensures Exact(Swap(w, cat, active, target, env).0, cat, Some(target.key)) <==> Effective(cat, active, target, env)
  {
    forall m ensures m in w.serving <==>
      m in Outgoing(ModelsOf(cat, active), target.models) || (m in w.serving && m in ExecOf(target.models))
    {
      StaysOrGoes(cat, active, target, m);
    }
    assert forall m :: m in Outgoing(ModelsOf(cat, active), target.models) ==> m !in ExecOf(target.models);
    ExactIff(w, cat, active, target, env);
  }

  lemma StaysOrGoes(cat: Catalog, active: Option<Profile>, target: VramProfile, m: Model)
    requires NamesIdentify(cat) && Registered(cat, target)
    ensures m in ExecOf(ModelsOf(cat, active)) && m !in ExecOf(target.models) ==>
      m in Outgoing(ModelsOf(cat, active), target.models)
  {
    if m in ExecOf(ModelsOf(cat, active)) && m.name in Names(target.models) {
      var n :| n in target.models && n.name == m.name;
      assert m == n;
    }
  }

  // ---------------------------------------------------------------- runs of swaps

  datatype Call = Call(target: VramProfile, force: bool, env: Env)

  /** switch_profile on values: world, active profile and result. */
  function Switch(w: World, cat: Catalog, active: Option<Profile>, c: Call): (World, Option<Profile>, bool) {
    if active == Some(c.target.key) && !c.force then (w, active, true)
    else
      var (w', ok) := Swap(w, cat, active, c.target, c.env);
      (w', if ok then Some(c.target.key) else active, ok)
  }

  /** A call that is skipped, or whose stops took effect. */
  predicate Lands(cat: Catalog, active: Option<Profile>, c: Call) {
    (active == Some(c.target.key) && !c.force) || Effective(cat, active, c.target, c.env)
  }

  /** Every call of the run returns True, and its stops took effect. */
  ghost predicate AllSucceed(w: World, cat: Catalog, active: Option<Profile>, cs: seq<Call>)
    decreases |cs|
  {
    cs == [] ||
    var (w', a', ok) := Switch(w, cat, active, cs[0]);
    ok && Registered(cat, cs[0].target) && Lands(cat, active, cs[0]) && AllSucceed(w', cat, a', cs[1..])
  }

  ghost function AfterCalls(w: World, cat: Catalog, active: Option<Profile>, cs: seq<Call>): (World, Option<Profile>)
    decreases |cs|
  {
    if cs == [] then (w, active)
    else
      var (w', a', _) := Switch(w, cat, active, cs[0]);
      AfterCalls(w', cat, a', cs[1..])
  }

  /** One successful call, skipped or not: it lands exactly if its stops took effect. */
  lemma SwitchExact(w: World, cat: Catalog, active: Option<Profile>, c: Call)
    requires NamesIdentify(cat) && Exact(w, cat, active) && Registered(cat, c.target)
    requires Switch(w, cat, active, c).2
    ensures var (w', a', _) := Switch(w, cat, active, c);
      (Exact(w', cat, a') <==> Lands(cat, active, c)) && a' == Some(c.target.key)
  {
    if !(active == Some(c.target.key) && !c.force) {
      SwapExact(w, cat, active, c.target, c.env);
    }
  }

  /** Over every run of successful swaps, skipped ones included, exactly the profile
      named active is up. */
  lemma {:induction false} RunExact(w: World, cat: Catalog, active: Option<Profile>, cs: seq<Call>)
    requires NamesIdentify(cat) && Exact(w, cat, active) && AllSucceed(w, cat, active, cs)
    ensures var (w', a') := AfterCalls(w, cat, active, cs);
      && Exact(w', cat, a')
      && (cs != [] ==> a' == Some(cs[|cs| - 1].target.key))
    decreases |cs|
  {
    if cs != [] {
      SwitchExact(w, cat, active, cs[0]);
      var (w', a', _) := Switch(w, cat, active, cs[0]);
      RunExact(w', cat, a', cs[1..]);
    }
  }

  // ---------------------------------------------------------------- where it fails

  const NODE_A := Model("a", "vllm_node", SparkCluster)
  const NODE_B := Model("b", "vllm_node", SparkCluster)
  const NODE_C := Model("c", "vllm_node", SparkCluster)

  function Shared(): Catalog {
    Catalog(map["a" := VramProfile("a", [NODE_A], true), "b" := VramProfile("b", [NODE_B], true), "c" := VramProfile("c", [NODE_C], true)],
            [NODE_A, NODE_B, NODE_C])
  }

  const EFFECTIVE := Stops({}, {}, None, {})
  const FINE := Env(false, EFFECTIVE, true, EFFECTIVE, [], AllHealthy)
  /** One rank of the model came up before the launch of the next one raised. */
  const BROKEN := FINE.(starts := [Failed(false, true)])

  /** The stop of "a" finds a rank out of reach and is taken for done. */
  const UNREACHABLE := FINE.(first := EFFECTIVE.(surviving := {NODE_A}))

  /** One swap between the three models of the one shared container. */
  lemma SharedStep(w: World, from: Model, m: Model, env: Env)
    requires from in {NODE_A, NODE_B, NODE_C} && m in {NODE_A, NODE_B, NODE_C} && from != m
    requires !env.pauses && env.first.raising == None && env.wait == AllHealthy
    requires env.starts == [] || env.starts == [Failed(false, true)]
    ensures var (w', a', ok) := Switch(w, Shared(), Some(from.name), Call(Shared().profiles[m.name], false, env));
      && ok == (env.starts == []) && a' == Some(if ok then m.name else from.name)
      && w'.serving == w.serving - Killed({from}, env.first) + {m}
  {
    SharedProfile(m);
    SharedTeardown(w, from, m, env.first);
    var w1 := Teardown(w, Shared(), Some(from.name), [m], false, env.first).0;
    StartOne(w1, m, env);
  }

  lemma SharedProfile(m: Model)
    requires m in {NODE_A, NODE_B, NODE_C}
    ensures m.name in Shared().profiles && Shared().profiles[m.name] == VramProfile(m.name, [m], true)
  {
  }

  lemma StartOne(w: World, m: Model, env: Env)
    requires Exec(m) && (env.starts == [] || env.starts == [Failed(false, true)])
    ensures var (w', ok) := StartFrom(w, [m], env.starts, 0);
      ok == (env.starts == []) && w'.serving == w.serving + {m}
  {
    var w1 := StartModel(w, m, ResultAt(env.starts, 0));
    assert StartFrom(w1, [m], env.starts, 1) == (w1, true);
  }

  lemma SharedTeardown(w: World, from: Model, m: Model, stops: Stops)
    requires from in {NODE_A, NODE_B, NODE_C} && m in {NODE_A, NODE_B, NODE_C} && from != m
    requires stops.raising == None
    ensures var (w', ok) := Teardown(w, Shared(), Some(from.name), [m], false, stops);
      ok && w'.serving == w.serving - Killed({from}, stops)
  {
    assert ModelsOf(Shared(), Some(from.name)) == [from];
    assert Outgoing([from], [m]) == {from} by {
      assert Names([m]) == {m.name};
    }
    assert [from][..1] == [from];
    var w0 := StopOutgoing(w, {from}, stops);
    NothingTorn(w0, m);
  }

  /** No other container has a catalogue model. */
  lemma NothingTorn(w: World, m: Model)
    requires m in {NODE_A, NODE_B, NODE_C}
    ensures TornModels(Shared(), Torn(w, Containers([m]))) == {}
  {
    assert Containers([m]) == {"vllm_node"};
    forall c | c in Torn(w, {"vllm_node"}) ensures ModelFor(Shared().allModels, c) == None {
      assert ModelFor([NODE_C], c) == None;
      assert Shared().allModels[1..][1..] == [NODE_C];
    }
  }

  lemma SharedEntry(p: Profile, m: Model)
    requires p in Shared().profiles && m in Shared().profiles[p].models
    ensures m == (if p == "a" then NODE_A else if p == "b" then NODE_B else NODE_C) && p in {"a", "b", "c"}
  {
    assert m == Shared().profiles[p].models[0];
  }

  lemma SharedNames()
    ensures NamesIdentify(Shared())
  {
    var cat := Shared();
    forall p, m | p in cat.profiles && m in cat.profiles[p].models ensures m == InNode(m.name) {
      SharedEntry(p, m);
    }
    ByName(cat);
  }

  function InNode(name: string): Model {
    Model(name, "vllm_node", SparkCluster)
  }

  lemma ByName(cat: Catalog)
    requires forall p, m | p in cat.profiles && m in cat.profiles[p].models :: m == InNode(m.name)
    ensures NamesIdentify(cat)
  {
  }

  function UpWithA(): World {
    World(map["vllm_node" := Ready], {NODE_A})
  }

  function ToB(): (World, Option<Profile>, bool) {
    Switch(UpWithA(), Shared(), Some("a"), Call(Shared().profiles["b"], false, BROKEN))
  }

  function ThenToC(): (World, Option<Profile>, bool) {
    Switch(ToB().0, Shared(), Some("a"), Call(Shared().profiles["c"], false, FINE))
  }

  lemma SwapToBFails()
    ensures !ToB().2 && ToB().1 == Some("a") && ToB().0.serving == {NODE_B}
  {
    SharedStep(UpWithA(), NODE_A, NODE_B, BROKEN);
  }

  lemma SwapToCStrays()
    ensures ThenToC().2 && ThenToC().1 == Some("c") && ThenToC().0.serving == {NODE_B, NODE_C}
  {
    SwapToBFails();
    SharedStep(ToB().0, NODE_A, NODE_C, FINE);
  }

  lemma UpWithAIsExact()
    ensures Exact(UpWithA(), Shared(), Some("a"))
  {
    assert ModelsOf(Shared(), Some("a")) == [NODE_A] && ExecOf([NODE_A]) == {NODE_A};
  }

  lemma StrayIsNotExact(w: World)
    requires NODE_B in w.serving
    ensures !Exact(w, Shared(), Some("c"))
  {
    assert ModelsOf(Shared(), Some("c")) == [NODE_C];
  }

  /** A failed swap keeps the old profile's name.  With "a" up, a swap to "b" dies after
      one of its processes came up; the next swap succeeds, yet stops "a" only, and the
      stray "b" goes on serving in the shared container beside "c". */
  lemma FailedSwapLeavesStray()
    ensures NamesIdentify(Shared()) && Exact(UpWithA(), Shared(), Some("a"))
    ensures !ToB().2 && ToB().1 == Some("a")
    ensures ThenToC().2 && ThenToC().1 == Some("c") && NODE_B in ThenToC().0.serving
    ensures !Exact(ThenToC().0, Shared(), Some("c"))
  {
    SharedNames();
    UpWithAIsExact();
    SwapToBFails();
    SwapToCStrays();
    StrayIsNotExact(ThenToC().0);
  }

  /** A stop that fails in silence leaves its model serving beside the target, although the
      swap ran its five steps and says so. */
  lemma SilentStopLeavesStray()
    ensures Exact(UpWithA(), Shared(), Some("a"))
    ensures var (w', a', ok) := Switch(UpWithA(), Shared(), Some("a"), Call(Shared().profiles["b"], false, UNREACHABLE));
      ok && a' == Some("b") && w'.serving == {NODE_A, NODE_B} && !Exact(w', Shared(), Some("b"))
  {
    UpWithAIsExact();
    SharedStep(UpWithA(), NODE_A, NODE_B, UNREACHABLE);
    assert ModelsOf(Shared(), Some("b")) == [NODE_B];
  }
}
