/**
 ContainerOrchestrator of gateway/orchestrator.py: its fields and the methods of a swap,
 in place, proved against OrchestratorSpec.  `serving` is the outside world: the
 exec-managed models whose process runs.
 */
module Orchestrator {
  import opened Common
  import opened OrchestratorSpec
  import T = OrchestratorTheorems
  import F = OrchestratorFailures

  lemma OutgoingGrows(current: seq<Model>, i: nat, target: seq<Model>)
    requires i < |current|
    ensures Outgoing(current[..i + 1], target) == Outgoing(current[..i], target) + Outgoing([current[i]], target)
    ensures Outgoing([current[i]], target) ==
      if Exec(current[i]) && current[i].name !in Names(target) then {current[i]} else {}
  {
    T.OutgoingSnoc(current, i, target);
  }

  /** Handled is the first index where a stop raises. */
  lemma RaisedAt(w: World, current: seq<Model>, target: seq<Model>, stops: Stops, n: nat)
    requires n < |current| && RaisesIn(stops, Outgoing([current[n]], target))
    requires forall i :: 0 <= i < n ==> !RaisesIn(stops, Outgoing([current[i]], target))
    ensures var w' := StopOutgoing(w, Outgoing(current[..n], target), stops);
      StopCurrent(w, current, target, stops)
      == (w'.(serving := w'.serving - Killed(Outgoing([current[n]], target), stops)), false)
  {
    assert Handled(current, target, stops) == n;
    assert Outgoing([current[n]], target) == {current[n]};
  }

  lemma NoneRaised(w: World, current: seq<Model>, target: seq<Model>, stops: Stops)
    requires forall i :: 0 <= i < |current| ==> !RaisesIn(stops, Outgoing([current[i]], target))
    ensures StopCurrent(w, current, target, stops)
         == (StopOutgoing(w, Outgoing(current[..|current|], target), stops), true)
  {
    assert Handled(current, target, stops) == |current|;
  }

  lemma StopOneMore(w: World, current: seq<Model>, i: nat, target: seq<Model>, stops: Stops)
    requires i < |current|
    ensures var w' := StopOutgoing(w, Outgoing(current[..i], target), stops);
      var out := Outgoing([current[i]], target);
      StopOutgoing(w, Outgoing(current[..i + 1], target), stops)
      == World(if out == {} then w'.states else w'.states[current[i].container := Stopped], w'.serving - Killed(out, stops))
  {
    OutgoingGrows(current, i, target);
    var out := Outgoing(current[..i], target);
    if Outgoing([current[i]], target) == {} {
      assert out + {} == out && Killed({}, stops) == {};
    } else {
      StopOneOutgoing(w, out, current[i], stops);
    }
  }

  lemma StopOneOutgoing(w: World, out: set<Model>, m: Model, stops: Stops)
    ensures var w' := StopOutgoing(w, out, stops);
      StopOutgoing(w, out + {m}, stops) == World(w'.states[m.container := Stopped], w'.serving - Killed({m}, stops))
  {
    var cs := set x | x in out :: x.container;
    assert (set x | x in out + {m} :: x.container) == cs + {m.container};
    assert StopOutgoing(w, out + {m}, stops).states == StopOutgoing(w, out, stops).states[m.container := Stopped];
    KilledGrows(w.serving, out, {m}, stops);
  }

  lemma KilledGrows(serving: set<Model>, a: set<Model>, b: set<Model>, stops: Stops)
    ensures serving - Killed(a + b, stops) == serving - Killed(a, stops) - Killed(b, stops)
  {
  }

  /** The exec-managed model stopped through container `c`, if there is one. */
  function StoppedThrough(cat: Catalog, c: string): set<Model> {
    var m := ModelFor(cat.allModels, c);
    if m.Some? && Exec(m.value) then {m.value} else {}
  }

  /** The second loop raises at a container exactly if the model stopped through it does. */
  lemma RaisesThrough(cat: Catalog, c: string, stops: Stops)
    ensures RaisesAt(cat, stops) == Some(c) <==> RaisesIn(stops, StoppedThrough(cat, c))
    ensures RaisesAt(cat, stops) == Some(c) ==> StoppedThrough(cat, c) == {stops.raising.value}
  {
    F.ModelForHas(cat.allModels, c);
  }

  lemma TornModelsGrow(cat: Catalog, torn: set<string>, c: string)
    ensures TornModels(cat, torn + {c}) == TornModels(cat, torn) + StoppedThrough(cat, c)
  {
  }

  lemma TearOneMore(w: World, cat: Catalog, torn: set<string>, c: string, pauses: bool, stops: Stops)
    requires c in w.states
    ensures var w' := TearSome(w, cat, torn, pauses, stops);
      TearSome(w, cat, torn + {c}, pauses, stops) ==
        World(w'.states[c := TornState(cat, c, pauses, stops)], w'.serving - Killed(StoppedThrough(cat, c), stops))
  {
    TornModelsGrow(cat, torn, c);
    KilledGrows(w.serving, TornModels(cat, torn), StoppedThrough(cat, c), stops);
  }

  lemma PendingOneLess(torn: set<string>, pending: set<string>, name: string)
    requires name in pending
    ensures torn - (pending - {name}) == if name in torn then torn - pending + {name} else torn - pending
  {
  }

  /** The stop that raises comes when exactly the containers before it are done. */
  lemma DoneBefore(torn: set<string>, pending: set<string>, before: set<string>, at: string)
    requires at in pending && torn - pending <= before - {at} && pending !! before - {at}
    ensures torn - pending == torn * before - {at}
  {
  }

  lemma PromoteOneMore(w: World, models: seq<Model>, i: nat)
    requires i < |models|
    ensures var c := models[i].container;
      var before := PromoteStarting(w, models[..i]).states;
      PromoteStarting(w, models[..i + 1]).states
      == if c in before && before[c] == Starting then before[c := Ready] else before
  {
    assert models[..i + 1] == models[..i] + [models[i]];
    assert Containers(models[..i + 1]) == Containers(models[..i]) + {models[i].container};
  }

  class ContainerOrchestrator {
    const catalog: Catalog
    var states: map<string, State>
    var activeProfile: Option<Profile>
    var swapInProgress: bool
    var serving: set<Model>

    constructor (catalog: Catalog)
      ensures this.catalog == catalog && states == map[] && activeProfile == None && !swapInProgress && serving == {}
    {
      this.catalog := catalog;
      states, activeProfile, swapInProgress, serving := map[], None, false, {};
    }

    ghost function Now(): World
      reads this
    {
      World(states, serving)
    }

    /** False when the stop raises. */
    method StopExecModel(m: Model, stops: Stops) returns (ok: bool)
      modifies this`serving
      ensures serving == old(serving) - Killed({m}, stops)
      ensures ok == !RaisesIn(stops, {m})
    {
      if m !in stops.surviving {
        serving := serving - {m};
      }
      ok := stops.raising != Some(m);
    }

    /** One round of the first loop, for a model that is outgoing or is passed over. */
    method StopIfOutgoing(m: Model, target: seq<Model>, stops: Stops) returns (ok: bool)
      modifies this`states, this`serving
      ensures var out := Outgoing([m], target);
        && ok == !RaisesIn(stops, out)
        && serving == old(serving) - Killed(out, stops)
        && states == if ok && out != {} then old(states)[m.container := Stopped] else old(states)
    {
      ok := true;
      if !Exec(m) || m.name in Names(target) {
        assert Outgoing([m], target) == {};
        return;
      }
      assert Outgoing([m], target) == {m};
      ok := StopExecModel(m, stops);
      if ok {
        states := states[m.container := Stopped];
      }
    }

    /** Exec-managed models of the outgoing profile, by identity. */
    method StopCurrentModels(target: seq<Model>, stops: Stops) returns (ok: bool)
      modifies this`states, this`serving
      ensures (Now(), ok) == StopCurrent(old(Now()), ModelsOf(catalog, activeProfile), target, stops)
    {
      var current := if activeProfile.Some? && activeProfile.value in catalog.profiles
                     then catalog.profiles[activeProfile.value].models else [];
      ghost var w := Now();
      for i := 0 to |current|
        invariant Now() == StopOutgoing(w, Outgoing(current[..i], target), stops)
        invariant forall j :: 0 <= j < i ==> !RaisesIn(stops, Outgoing([current[j]], target))
      {
        StopOneMore(w, current, i, target, stops);
        ok := StopIfOutgoing(current[i], target, stops);
        if !ok {
          RaisedAt(w, current, target, stops, i);
          return;
        }
      }
      NoneRaised(w, current, target, stops);
      ok := true;
    }

    /** Takes down one tracked container, or the process inside it; false when that raises. */
    method StopOne(name: string, pauses: bool, stops: Stops) returns (ok: bool)
      modifies this`states, this`serving
      ensures ok == !RaisesIn(stops, StoppedThrough(catalog, name))
      ensures states == old(states)[name := if ok then TornState(catalog, name, pauses, stops) else Stopping]
      ensures serving == old(serving) - Killed(StoppedThrough(catalog, name), stops)
    {
      states := states[name := Stopping];
      ok := true;
      var m := ModelFor(catalog.allModels, name);
      if m.Some? && Exec(m.value) {
        ok := StopExecModel(m.value, stops);
        if ok {
          states := states[name := Stopped];
        }
        return;
      }
      if name !in stops.failing {
        states := states[name := if pauses then Paused else Stopped];
      }
    }

    /** One round of the second loop. */
    method TearOne(ghost w: World, ghost done: set<string>, name: string, pauses: bool, stops: Stops) returns (ok: bool)
      requires Now() == TearSome(w, catalog, done, pauses, stops) && name in w.states
      modifies this`states, this`serving
      ensures ok <==> RaisesAt(catalog, stops) != Some(name)
      ensures ok ==> Now() == TearSome(w, catalog, done + {name}, pauses, stops)
      ensures !ok ==> var w' := TearSome(w, catalog, done, pauses, stops);
        Now() == World(w'.states[name := Stopping], w'.serving - Killed({stops.raising.value}, stops))
    {
      TearOneMore(w, catalog, done, name, pauses, stops);
      RaisesThrough(catalog, name, stops);
      ok := StopOne(name, pauses, stops);
    }

    /** The tracked containers that are up and not preserved.  The order is that of the
        dictionary: any order that comes to `before` first, and then to the stop that
        raises. */
    method StopTracked(preserve: set<string>, pauses: bool, stops: Stops) returns (ok: bool)
      modifies this`states, this`serving
      ensures (Now(), ok) == TearTracked(old(Now()), catalog, preserve, pauses, stops)
    {
      var items := states;
      var pending := items.Keys;
      ghost var w := Now();
      ghost var torn := Torn(w, preserve);
      ghost var done: set<string> := {};
      var at := RaisesAt(catalog, stops);
      var early := if at.Some? then stops.before - {at.value} else {};
      while pending != {}
        invariant pending <= items.Keys && done == torn - pending
        invariant at.Some? && at.value in torn ==> at.value in pending && done <= early
        invariant Now() == TearSome(w, catalog, done, pauses, stops)
        decreases |pending|
      {
        var name :| name in pending &&
          (name in early || (pending !! early && (at.None? || at.value !in pending || name == at.value)));
        PendingOneLess(torn, pending, name);
        if name in preserve || (items[name] != Ready && items[name] != Starting) {
          pending := pending - {name};
          continue;
        }
        ok := TearOne(w, done, name, pauses, stops);
        if !ok {
          DoneBefore(torn, pending, stops.before, name);
          return;
        }
        pending := pending - {name};
        done := done + {name};
      }
      ok := true;
    }

    method TeardownCurrent(target: seq<Model>, pauses: bool, stops: Stops) returns (ok: bool)
      modifies this`states, this`serving
      ensures (Now(), ok) == Teardown(old(Now()), catalog, activeProfile, target, pauses, stops)
    {
      ok := StopCurrentModels(target, stops);
      if ok {
        ok := StopTracked(Containers(target), pauses, stops);
      }
    }

    /** False when starting the model raises. */
    method EnsureContainerRunning(m: Model, r: StartResult) returns (ok: bool)
      modifies this`states, this`serving
      ensures Now() == StartModel(old(Now()), m, r) && ok == !r.Failed?
    {
      states := states[m.container := Starting];
      if Exec(m) {
        serving := if r == Started || r.running then serving + {m} else serving - {m};
      }
      if r.Failed? && r.marked {
        states := states[m.container := Error];
      }
      return !r.Failed?;
    }

    /** The outcome of the wait: how it ended, with the healthy ones marked READY. */
    method WaitAllReady(models: seq<Model>, wait: WaitResult) returns (end: WaitResult)
      modifies this`states
      ensures Now() == MarkReady(old(Now()), if wait.AllHealthy? || wait.healthy >= |models| then models else models[..wait.healthy])
      ensures end == if wait.AllHealthy? || wait.healthy >= |models| then AllHealthy else wait
    {
      for i := 0 to |models|
        invariant wait.AllHealthy? || i <= wait.healthy
        invariant states == MarkReady(old(Now()), models[..i]).states
      {
        if !wait.AllHealthy? && i == wait.healthy {
          return wait;
        }
        assert models[..i + 1] == models[..i] + [models[i]];
        assert Containers(models[..i + 1]) == Containers(models[..i]) + {models[i].container};
        states := states[models[i].container := Ready];
      }
      assert models[..|models|] == models;
      return AllHealthy;
    }

    method PromoteLoading(models: seq<Model>)
      modifies this`states
      ensures Now() == PromoteStarting(old(Now()), models)
    {
      for i := 0 to |models|
        invariant states == PromoteStarting(old(Now()), models[..i]).states
      {
        PromoteOneMore(old(Now()), models, i);
        var c := models[i].container;
        if c in states && states[c] == Starting {
          states := states[c := Ready];
        }
      }
      assert models[..|models|] == models;
    }

    method StartAll(models: seq<Model>, starts: seq<StartResult>) returns (ok: bool)
      modifies this`states, this`serving
      ensures (Now(), ok) == StartFrom(old(Now()), models, starts, 0)
    {
      for i := 0 to |models|
        invariant StartFrom(old(Now()), models, starts, 0) == StartFrom(Now(), models, starts, i)
      {
        ok := EnsureContainerRunning(models[i], ResultAt(starts, i));
        if !ok {
          return false;
        }
      }
      return true;
    }

    /** Steps 1 and 2. */
    method ClearTheWay(target: VramProfile, env: Env) returns (ok: bool)
      modifies this`states, this`serving
      ensures (Now(), ok) == MakeRoom(old(Now()), catalog, activeProfile, target, env)
    {
      ok := TeardownCurrent(target.models, env.pauses, env.first);
      if ok && !target.skipVramCheck && !env.enoughVram {
        ok := TeardownCurrent(target.models, false, env.second);
      }
    }

    /** Step 4. */
    method AwaitTarget(models: seq<Model>, wait: WaitResult) returns (ok: bool)
      modifies this`states
      ensures (Now(), ok) == WaitReady(old(Now()), models, wait)
    {
      var end := WaitAllReady(models, wait);
      if end.TimesOut? {
        PromoteLoading(models);
      }
      ok := !end.Raises?;
    }

    /** One call under the mutex. */
    method SwitchProfile(target: VramProfile, force: bool, env: Env) returns (ok: bool)
      requires !swapInProgress
      modifies this
      ensures !swapInProgress
      ensures (Now(), activeProfile, ok) == T.Switch(old(Now()), catalog, old(activeProfile), T.Call(target, force, env))
    {
      if activeProfile == Some(target.key) && !force {
        return true;
      }
      swapInProgress := true;
      ok := ClearTheWay(target, env);
      if ok {
        ok := StartAll(target.models, env.starts);
      }
      if ok {
        ok := AwaitTarget(target.models, env.wait);
      }
      if ok {
        activeProfile := Some(target.key);
      }
      swapInProgress := false;
    }
  }
}
