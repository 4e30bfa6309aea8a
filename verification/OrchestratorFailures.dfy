/** What a profile swap leaves when it fails, step by step, and what each teardown records. */
module OrchestratorFailures {
  import opened Common
  import opened OrchestratorSpec
  import opened OrchestratorTheorems

  // ---------------------------------------------------------------- the teardown, exactly

  /** Who a teardown sends a stop to, in plain terms: the outgoing exec-managed models; and,
      for each tracked container that is up, is not the target's and held no outgoing model,
      the first catalogue entry of that container if it is exec-managed. */
  lemma AskedIff(w: World, cat: Catalog, active: Option<Profile>, target: VramProfile, env: Env, m: Model)
    ensures var outgoing := ModelsOf(cat, active);
      var exec := m.engine == RayVllm || m.engine == SparkCluster;
      m in Asked(w, cat, active, target, env) <==>
        || (m in outgoing && exec && forall n | n in target.models :: n.name != m.name)
        || (exec && ModelFor(cat.allModels, m.container) == Some(m)
            && m.container in w.states && (w.states[m.container] == Ready || w.states[m.container] == Starting)
            && (forall n | n in target.models :: n.container != m.container)
            && forall o | o in Outgoing(outgoing, target.models) :: o.container != m.container)
  {
    var out := Outgoing(ModelsOf(cat, active), target.models);
    var w0 := StopOutgoing(w, out, env.first);
    TornModelIff(cat, Torn(w0, Containers(target.models)), m);
    assert m.name in Names(target.models) <==> exists n | n in target.models :: n.name == m.name;
    assert m.container in Containers(target.models) <==> exists n | n in target.models :: n.container == m.container;
  }

  lemma {:induction false} ModelForHas(all: seq<Model>, c: string)
    ensures ModelFor(all, c).Some? ==> ModelFor(all, c).value in all && ModelFor(all, c).value.container == c
    ensures ModelFor(all, c).None? ==> forall m | m in all :: m.container != c
  {
    if all != [] {
      ModelForHas(all[1..], c);
    }
  }

  lemma TornModelIff(cat: Catalog, torn: set<string>, m: Model)
    ensures m in TornModels(cat, torn) <==>
      Exec(m) && m.container in torn && ModelFor(cat.allModels, m.container) == Some(m)
  {
    forall c | c in torn && ModelFor(cat.allModels, c) == Some(m) ensures c == m.container {
      ModelForHas(cat.allModels, c);
    }
  }

  /** The state a teardown records for each container, when no stop raises. */
  lemma TeardownRecords(w: World, cat: Catalog, active: Option<Profile>, target: seq<Model>, pauses: bool, stops: Stops, c: string)
    requires Teardown(w, cat, active, target, pauses, stops).1
    ensures var states := Teardown(w, cat, active, target, pauses, stops).0.states;
      var m := ModelFor(cat.allModels, c);
      if exists o | o in Outgoing(ModelsOf(cat, active), target) :: o.container == c then
        c in states && states[c] == Stopped
      else if c !in w.states then c !in states
      else
        && c in states
        && if (exists n | n in target :: n.container == c) || (w.states[c] != Ready && w.states[c] != Starting) then
             states[c] == w.states[c]
           else if m.Some? && Exec(m.value) then states[c] == Stopped
           else if c in stops.failing then states[c] == Stopping
           else if pauses then states[c] == Paused
           else states[c] == Stopped
  {
    TeardownDone(w, cat, active, target, pauses, stops);
    assert c in Containers(target) <==> exists n | n in target :: n.container == c;
  }

  /** When a teardown raises: the stop of an outgoing model does, or that of the catalogue
      model of a container the second loop comes to. */
  lemma TeardownRaisesIff(w: World, cat: Catalog, active: Option<Profile>, target: seq<Model>, pauses: bool, stops: Stops)
    ensures !Teardown(w, cat, active, target, pauses, stops).1 <==>
      && stops.raising.Some?
      && var m := stops.raising.value;
         || m in Outgoing(ModelsOf(cat, active), target)
         || (Exec(m) && ModelFor(cat.allModels, m.container) == Some(m)
             && m.container in w.states && Up(w.states[m.container]) && m.container !in Containers(target)
             && forall o | o in Outgoing(ModelsOf(cat, active), target) :: o.container != m.container)
  {
    var current := ModelsOf(cat, active);
    HandledAll(current, target, stops);
  }

  lemma {:induction false} HandledAll(current: seq<Model>, target: seq<Model>, stops: Stops)
    ensures Handled(current, target, stops) == |current| <==> !RaisesIn(stops, Outgoing(current, target))
    ensures Handled(current, target, stops) == |current| ==> current[..|current|] == current
  {
    var n := Handled(current, target, stops);
    if n < |current| {
      assert Outgoing([current[n]], target) <= Outgoing(current, target);
    }
  }

  /** A raise in the first loop: the containers of the outgoing models before it are recorded
      STOPPED, its own is not touched unless it is one of theirs, nor is any other. */
  lemma RaisedEarly(w: World, cat: Catalog, active: Option<Profile>, target: seq<Model>, pauses: bool, stops: Stops, c: string)
    requires RaisesIn(stops, Outgoing(ModelsOf(cat, active), target))
    ensures var (w', ok) := Teardown(w, cat, active, target, pauses, stops);
      var current := ModelsOf(cat, active);
      var n := Handled(current, target, stops);
      && !ok && n < |current| && current[n] == stops.raising.value
      && (forall i | 0 <= i < n :: current[i] == stops.raising.value ==> current[i] !in Outgoing(current, target))
      && w'.serving == w.serving - Killed(Outgoing(current[..n], target) + {current[n]}, stops)
      && if exists o | o in Outgoing(current[..n], target) :: o.container == c then c in w'.states && w'.states[c] == Stopped
         else (c in w'.states <==> c in w.states) && (c in w.states ==> w'.states[c] == w.states[c])
  {
    var current := ModelsOf(cat, active);
    HandledAll(current, target, stops);
    var n := Handled(current, target, stops);
    forall i | 0 <= i < n && current[i] in Outgoing(current, target) ensures current[i] != stops.raising.value {
      assert current[i] in Outgoing([current[i]], target);
    }
  }

  /** A raise in the second loop: its container stays STOPPING, the containers the loop had
      come to are down, and the others are as the first loop left them. */
  lemma RaisedLate(w: World, cat: Catalog, active: Option<Profile>, target: seq<Model>, pauses: bool, stops: Stops)
    requires !Teardown(w, cat, active, target, pauses, stops).1
    requires !RaisesIn(stops, Outgoing(ModelsOf(cat, active), target))
    ensures var out := Outgoing(ModelsOf(cat, active), target);
      var w0 := StopOutgoing(w, out, stops);
      var w' := Teardown(w, cat, active, target, pauses, stops).0;
      var at := stops.raising.value.container;
      && at in w'.states && w'.states[at] == Stopping && w'.states.Keys == w0.states.Keys
      && (forall c | c in w'.states && c != at && c in stops.before && c in Torn(w0, Containers(target)) :: !Up(w'.states[c]))
      && (forall c | c in w'.states && c != at && !(c in stops.before && c in Torn(w0, Containers(target))) ::
            w'.states[c] == w0.states[c])
      && stops.raising.value !in w'.serving - stops.surviving && w'.serving <= w.serving
  {
    HandledAll(ModelsOf(cat, active), target, stops);
  }

  // ---------------------------------------------------------------- when the cleanup counts

  /** With enough memory, or none to check, what a cleanup would do does not matter. */
  lemma NoCleanup(w: World, cat: Catalog, active: Option<Profile>, target: VramProfile, env: Env, other: Stops)
    requires target.skipVramCheck || env.enoughVram
    ensures Swap(w, cat, active, target, env) == Swap(w, cat, active, target, env.(second := other))
  {
  }

  /** Otherwise it does: it ends the swap if the stop of an outgoing model raises in it, and
      what it stops is gone. */
  lemma CleanupCounts(w: World, cat: Catalog, active: Option<Profile>, target: VramProfile, env: Env)
    requires !target.skipVramCheck && !env.enoughVram
    ensures RaisesIn(env.second, Outgoing(ModelsOf(cat, active), target.models)) ==> !Swap(w, cat, active, target, env).1
    ensures Swap(w, cat, active, target, env).1 ==>
      forall m | m in Outgoing(ModelsOf(cat, active), target.models) && m !in env.second.surviving && m !in target.models ::
        m !in Swap(w, cat, active, target, env).0.serving
  {
    TeardownRaisesIff(Teardown(w, cat, active, target.models, env.pauses, env.first).0,
                      cat, active, target.models, false, env.second);
    if Swap(w, cat, active, target, env).1 {
      CompletedSwap(w, cat, active, target, env);
    }
  }

  // ---------------------------------------------------------------- steps 3 and 4

  /** The first model whose start raises. */
  predicate FailsAt(models: seq<Model>, rs: seq<StartResult>, k: nat) {
    k < |models| && ResultAt(rs, k).Failed? && forall j | 0 <= j < k :: !ResultAt(rs, j).Failed?
  }

  lemma {:induction false} StartStops(w: World, models: seq<Model>, rs: seq<StartResult>, i: nat, k: nat)
    requires i <= k && FailsAt(models, rs, k)
    ensures var (w', ok) := StartFrom(w, models, rs, i);
      var last, r := models[k], ResultAt(rs, k);
      && !ok
      && w'.states.Keys == w.states.Keys + Containers(models[i..k]) + {last.container}
      && (forall c | c in w'.states :: w'.states[c] ==
            if c == last.container then (if r.marked then Error else Starting)
            else if c in Containers(models[i..k]) then Starting
            else w.states[c])
      && w'.serving ==
           if !Exec(last) then w.serving + ExecOf(models[i..k])
           else if r.running then w.serving + ExecOf(models[i..k]) + {last}
           else w.serving + ExecOf(models[i..k]) - {last}
    decreases k - i
  {
    if i < k {
      var w1 := StartModel(w, models[i], ResultAt(rs, i));
      StartStops(w1, models, rs, i + 1, k);
      OneMoreStarted(models, i, k);
    } else {
      assert models[i..k] == [];
    }
  }

  lemma OneMoreStarted(models: seq<Model>, i: nat, k: nat)
    requires i < k <= |models|
    ensures Containers(models[i..k]) == {models[i].container} + Containers(models[i + 1..k])
    ensures ExecOf(models[i..k]) == (if Exec(models[i]) then {models[i]} else {}) + ExecOf(models[i + 1..k])
  {
    assert models[i..k] == [models[i]] + models[i + 1..k];
  }

  /** A swap that fails in step 3, at model k: the active name stands; the container of k is
      ERROR if the branch that raised marks it and STARTING otherwise; those of the models
      before it, unless shared with it, are STARTING; every other one is as step 2 left it,
      so that none became READY. */
  lemma FailedStart(w: World, cat: Catalog, active: Option<Profile>, c: Call, k: nat)
    requires active != Some(c.target.key) || c.force
    requires MakeRoom(w, cat, active, c.target, c.env).1 && FailsAt(c.target.models, c.env.starts, k)
    ensures var (w', a', ok) := Switch(w, cat, active, c);
      var w2, models, r := MakeRoom(w, cat, active, c.target, c.env).0, c.target.models, ResultAt(c.env.starts, k);
      var at := models[k].container;
      && !ok && a' == active
      && at in w'.states && w'.states[at] == (if r.marked then Error else Starting)
      && (forall j | 0 <= j < k && models[j].container != at ::
            models[j].container in w'.states && w'.states[models[j].container] == Starting)
      && (forall x | x in w'.states && w'.states[x] == Ready ::
            x in w2.states && w2.states[x] == Ready && forall j | 0 <= j <= k :: models[j].container != x)
      && (forall x | x in w2.states && (forall j | 0 <= j <= k :: models[j].container != x) ::
            x in w'.states && w'.states[x] == w2.states[x])
      && (Exec(models[k]) ==> (models[k] in w'.serving <==> r.running))
      && (forall m | m in models[..k] && Exec(m) && m != models[k] :: m in w'.serving)
      && w'.serving <= w2.serving + ExecOf(models[..k + 1])
  {
    var w2, models := MakeRoom(w, cat, active, c.target, c.env).0, c.target.models;
    StartLeavesStates(w2, models, c.env.starts, k);
    StartLeavesServing(w2, models, c.env.starts, k);
  }

  lemma StartLeavesStates(w2: World, models: seq<Model>, rs: seq<StartResult>, k: nat)
    requires FailsAt(models, rs, k)
    ensures var (w', ok) := StartFrom(w2, models, rs, 0);
      var at := models[k].container;
      && !ok && at in w'.states && w'.states[at] == (if ResultAt(rs, k).marked then Error else Starting)
      && (forall j | 0 <= j < k && models[j].container != at ::
            models[j].container in w'.states && w'.states[models[j].container] == Starting)
      && (forall x | x in w'.states && w'.states[x] == Ready ::
            x in w2.states && w2.states[x] == Ready && forall j | 0 <= j <= k :: models[j].container != x)
      && (forall x | x in w2.states && (forall j | 0 <= j <= k :: models[j].container != x) ::
            x in w'.states && w'.states[x] == w2.states[x])
  {
    StartStops(w2, models, rs, 0, k);
    assert models[0..k] == models[..k];
    forall j | 0 <= j < k ensures models[j].container in Containers(models[..k]) {
      assert models[j] in models[..k];
    }
  }

  lemma StartLeavesServing(w2: World, models: seq<Model>, rs: seq<StartResult>, k: nat)
    requires FailsAt(models, rs, k)
    ensures var w' := StartFrom(w2, models, rs, 0).0;
      && (Exec(models[k]) ==> (models[k] in w'.serving <==> ResultAt(rs, k).running))
      && (forall m | m in models[..k] && Exec(m) && m != models[k] :: m in w'.serving)
      && w'.serving <= w2.serving + ExecOf(models[..k + 1])
  {
    StartStops(w2, models, rs, 0, k);
    assert models[0..k] == models[..k];
    assert models[..k + 1] == models[..k] + [models[k]];
  }

  /** A swap whose wait raises, other than by time-out, with k models healthy by then: the
      name stands, the containers of those k are READY, the target's others STARTING, and
      every other one is as step 2 left it. */
  lemma FailedWait(w: World, cat: Catalog, active: Option<Profile>, c: Call, k: nat)
    requires active != Some(c.target.key) || c.force
    requires MakeRoom(w, cat, active, c.target, c.env).1
    requires forall j | 0 <= j < |c.target.models| :: !ResultAt(c.env.starts, j).Failed?
    requires c.env.wait == Raises(k) && k < |c.target.models|
    ensures var (w', a', ok) := Switch(w, cat, active, c);
      var w2, models := MakeRoom(w, cat, active, c.target, c.env).0, c.target.models;
      && !ok && a' == active
      && w'.states.Keys == w2.states.Keys + Containers(models)
      && (forall x | x in w'.states :: w'.states[x] ==
            if x in Containers(models[..k]) then Ready else if x in Containers(models) then Starting else w2.states[x])
      && w'.serving == w2.serving + ExecOf(models)
  {
    var w2, models := MakeRoom(w, cat, active, c.target, c.env).0, c.target.models;
    AllStart(w2, models, c.env.starts, 0);
    StartedStates(w2, models, c.env.starts, 0);
    assert models[0..] == models;
    assert Containers(models[..k]) <= Containers(models);
  }

  /** After a time-out with k models healthy by then: the containers of those are READY, and
      of the others only those still STARTING are promoted. */
  lemma TimedOut(w: World, models: seq<Model>, k: nat)
    requires k < |models|
    ensures var (w', ok) := WaitReady(w, models, TimesOut(k));
      && ok && w'.serving == w.serving && w'.states.Keys == w.states.Keys + Containers(models[..k])
      && forall c | c in w'.states :: w'.states[c] ==
           if c in Containers(models[..k]) || (c in Containers(models) && w.states[c] == Starting) then Ready
           else w.states[c]
  {
  }

  lemma {:induction false} AllStart(w: World, models: seq<Model>, rs: seq<StartResult>, i: nat)
    requires i <= |models| && forall j | i <= j < |models| :: !ResultAt(rs, j).Failed?
    ensures StartFrom(w, models, rs, i).1
    decreases |models| - i
  {
    if i < |models| {
      AllStart(StartModel(w, models[i], ResultAt(rs, i)), models, rs, i + 1);
    }
  }

  /** A swap succeeds exactly if no stop and no start raises and the wait does not, other
      than by time-out; and only then is its profile active. */
  lemma SucceedsIff(w: World, cat: Catalog, active: Option<Profile>, c: Call)
    requires active != Some(c.target.key) || c.force
    ensures var (w', a', ok) := Switch(w, cat, active, c);
      var models := c.target.models;
      && (ok <==>
            && MakeRoom(w, cat, active, c.target, c.env).1
            && (forall j | 0 <= j < |models| :: !ResultAt(c.env.starts, j).Failed?)
            && (c.env.wait.Raises? ==> c.env.wait.healthy >= |models|))
      && a' == (if ok then Some(c.target.key) else active)
      && (!MakeRoom(w, cat, active, c.target, c.env).1 ==> w' == MakeRoom(w, cat, active, c.target, c.env).0)
  {
    var w2, models := MakeRoom(w, cat, active, c.target, c.env).0, c.target.models;
    if forall j | 0 <= j < |models| :: !ResultAt(c.env.starts, j).Failed? {
      AllStart(w2, models, c.env.starts, 0);
    } else {
      var k := FirstFailure(models, c.env.starts);
      StartStops(w2, models, c.env.starts, 0, k);
    }
  }

  lemma FirstFailure(models: seq<Model>, rs: seq<StartResult>) returns (k: nat)
    requires exists j | 0 <= j < |models| :: ResultAt(rs, j).Failed?
    ensures FailsAt(models, rs, k)
  {
    k := 0;
    while !ResultAt(rs, k).Failed?
      invariant k < |models| && forall j | 0 <= j < k :: !ResultAt(rs, j).Failed?
      decreases |models| - k
    {
      k := k + 1;
    }
  }
}
