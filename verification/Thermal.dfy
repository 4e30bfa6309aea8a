/** The governor loop of ops/thermal_guard.py, over the readings of a whole run. */
module Thermal {
  import opened Common

  datatype Config = Config(warn: real, danger: real, cool: real, steps: seq<int>, recover: real)

  /** One poll: the temperature, if it could be read, and the clock. */
  datatype Reading = Reading(temp: Option<real>, now: real)

  datatype State = State(idx: int, coolSince: Option<real>)

  function Last(cfg: Config): int {
    |cfg.steps| - 1
  }

  function Slower(cfg: Config, idx: int): int {
    if idx + 2 <= Last(cfg) then idx + 2 else Last(cfg)
  }

  function Decide(cfg: Config, s: State, t: real, now: real): State {
    if t >= cfg.danger && s.idx < Last(cfg) then State(Slower(cfg, s.idx), None)
    else if t >= cfg.warn && s.idx < Last(cfg) then State(s.idx + 1, None)
    else if t <= cfg.cool && s.idx > 0 then
      if s.coolSince.None? then s.(coolSince := Some(now))
      else if now - s.coolSince.value >= cfg.recover then State(s.idx - 1, None)
      else s
    else s.(coolSince := None)
  }

  function Step(cfg: Config, s: State, r: Reading): State {
    if r.temp.None? then s else Decide(cfg, s, r.temp.value, r.now)
  }

  function After(cfg: Config, rs: seq<Reading>): State {
    if rs == [] then State(0, None) else Step(cfg, After(cfg, rs[..|rs| - 1]), rs[|rs| - 1])
  }

  /** The clock caps asked for, in order; the first one lifts the limit. */
  function Caps(cfg: Config, rs: seq<Reading>): seq<int>
    requires cfg.steps != []
  {
    if rs == [] then [cfg.steps[0]]
    else
      var n := |rs| - 1;
      var before, after := After(cfg, rs[..n]).idx, After(cfg, rs).idx;
      InRange(cfg, rs);
      Caps(cfg, rs[..n]) + if after != before then [cfg.steps[after]] else []
  }

  lemma {:induction false} InRange(cfg: Config, rs: seq<Reading>)
    requires cfg.steps != []
    ensures 0 <= After(cfg, rs).idx <= Last(cfg)
  {
    if rs != [] {
      InRange(cfg, rs[..|rs| - 1]);
    }
  }

  lemma Snoc(rs: seq<Reading>, k: nat)
    requires k < |rs|
    ensures rs[..k + 1][..k] == rs[..k] && rs[..k + 1][k] == rs[k]
  {
  }

  lemma AfterNext(cfg: Config, rs: seq<Reading>, k: nat)
    requires k < |rs|
    ensures After(cfg, rs[..k + 1]) == Step(cfg, After(cfg, rs[..k]), rs[k])
  {
    Snoc(rs, k);
  }

  /** The loop of main; apply_cap is taken to succeed. */
  method Govern(cfg: Config, rs: seq<Reading>) returns (idx: int, caps: seq<int>)
    requires cfg.steps != []
    ensures idx == After(cfg, rs).idx && caps == Caps(cfg, rs)
  {
    idx := 0;
    caps := [cfg.steps[idx]];
    var coolSince: Option<real> := None;
    var k := 0;
    while k < |rs|
      invariant 0 <= k <= |rs| && 0 <= idx <= Last(cfg)
      invariant State(idx, coolSince) == After(cfg, rs[..k])
      invariant caps == Caps(cfg, rs[..k])
    {
      Snoc(rs, k);
      var r := rs[k];
      k := k + 1;
      if r.temp.None? {
        continue;
      }
      var t := r.temp.value;
      if t >= cfg.danger && idx < |cfg.steps| - 1 {
        idx := if idx + 2 <= |cfg.steps| - 1 then idx + 2 else |cfg.steps| - 1;
        caps := caps + [cfg.steps[idx]];
        coolSince := None;
      } else if t >= cfg.warn && idx < |cfg.steps| - 1 {
        idx := idx + 1;
        caps := caps + [cfg.steps[idx]];
        coolSince := None;
      } else if t <= cfg.cool && idx > 0 {
        if coolSince.None? {
          coolSince := Some(r.now);
        } else if r.now - coolSince.value >= cfg.recover {
          idx := idx - 1;
          caps := caps + [cfg.steps[idx]];
          coolSince := None;
        }
      } else {
        coolSince := None;
      }
    }
    assert rs[..k] == rs;
  }

  // ---------------------------------------------------------------- recovery windows

  function IdxAt(cfg: Config, rs: seq<Reading>, k: nat): int
    requires k <= |rs|
  {
    After(cfg, rs[..k]).idx
  }

  /** Reading k lifts the cap by a step. */
  predicate StepsUp(cfg: Config, rs: seq<Reading>, k: nat)
    requires k < |rs|
  {
    IdxAt(cfg, rs, k + 1) < IdxAt(cfg, rs, k)
  }

  /** From reading j to reading i: nothing warm was read, and no step was taken before i. */
  predicate CoolWindow(cfg: Config, rs: seq<Reading>, j: nat, i: nat)
    requires j <= i <= |rs|
  {
    && (forall k | j <= k < i :: rs[k].temp.Some? ==> rs[k].temp.value <= cfg.cool)
    && (forall k | j <= k < i :: IdxAt(cfg, rs, k) == IdxAt(cfg, rs, i))
  }

  /** A running recovery clock was started by a cool reading, with a cool window since. */
  lemma {:induction false} ClockIsWindow(cfg: Config, rs: seq<Reading>, i: nat) returns (j: nat)
    requires i <= |rs| && After(cfg, rs[..i]).coolSince.Some?
    ensures j < i && rs[j].temp.Some? && rs[j].now == After(cfg, rs[..i]).coolSince.value
    ensures CoolWindow(cfg, rs, j, i)
    decreases i
  {
    assert i > 0;
    AfterNext(cfg, rs, i - 1);
    var s := After(cfg, rs[..i - 1]);
    if s.coolSince.None? {
      j := i - 1;
    } else {
      j := ClockIsWindow(cfg, rs, i - 1);
    }
  }

  /** Every step up ends a window of at least recover seconds in which all valid readings
      were cool and no step happened. */
  lemma StepUpNeedsWindow(cfg: Config, rs: seq<Reading>, i: nat) returns (j: nat)
    requires cfg.steps != [] && i < |rs| && StepsUp(cfg, rs, i)
    ensures j < i && rs[j].temp.Some? && rs[i].now - rs[j].now >= cfg.recover
    ensures CoolWindow(cfg, rs, j, i) && rs[i].temp.Some? && rs[i].temp.value <= cfg.cool
    ensures IdxAt(cfg, rs, i + 1) == IdxAt(cfg, rs, i) - 1
  {
    AfterNext(cfg, rs, i);
    InRange(cfg, rs[..i]);
    j := ClockIsWindow(cfg, rs, i);
  }

  /** The windows of two steps up do not overlap. */
  lemma WindowsDisjoint(cfg: Config, rs: seq<Reading>, i: nat, i': nat, j': nat)
    requires i < i' < |rs| && StepsUp(cfg, rs, i) && j' <= i' && CoolWindow(cfg, rs, j', i')
    ensures i < j'
  {
  }

  /** How many readings step up. */
  function Ups(cfg: Config, rs: seq<Reading>): nat {
    if rs == [] then 0
    else
      var n := |rs| - 1;
      Ups(cfg, rs[..n]) + if After(cfg, rs).idx < After(cfg, rs[..n]).idx then 1 else 0
  }

  predicate ClockRuns(rs: seq<Reading>) {
    forall k | 0 < k < |rs| :: rs[k - 1].now <= rs[k].now
  }

  /** Time up to here is paid for: the start of the running recovery clock, or now. */
  function Mark(cfg: Config, rs: seq<Reading>): real
    requires rs != []
  {
    var s := After(cfg, rs);
    if s.coolSince.Some? then s.coolSince.value else rs[|rs| - 1].now
  }

  lemma MarkMoves(cfg: Config, rs: seq<Reading>)
    requires cfg.steps != [] && |rs| > 1 && ClockRuns(rs)
    requires var n := |rs| - 1; Mark(cfg, rs[..n]) <= rs[n - 1].now
    ensures var n := |rs| - 1;
      && Mark(cfg, rs[..n]) <= Mark(cfg, rs) <= rs[n].now
      && (After(cfg, rs).idx < After(cfg, rs[..n]).idx ==> Mark(cfg, rs[..n]) + cfg.recover <= Mark(cfg, rs))
  {
    var n := |rs| - 1;
    assert rs[..n][n - 1] == rs[n - 1];
    InRange(cfg, rs[..n]);
  }

  /** n recovery times. */
  function Paid(n: nat, recover: real): real {
    if n == 0 then 0.0 else Paid(n - 1, recover) + recover
  }

  lemma {:induction false} PaidIs(n: nat, recover: real)
    ensures Paid(n, recover) == n as real * recover
  {
    if n > 0 {
      PaidIs(n - 1, recover);
      var m := (n - 1) as real;
      assert n as real == m + 1.0;
      Distributes(m, recover);
    }
  }

  lemma Distributes(m: real, r: real)
    ensures (m + 1.0) * r == m * r + r
  {
  }

  lemma {:induction false} UpsBudget(cfg: Config, rs: seq<Reading>)
    requires cfg.steps != [] && rs != [] && ClockRuns(rs)
    ensures Mark(cfg, rs) <= rs[|rs| - 1].now
    ensures Paid(Ups(cfg, rs), cfg.recover) <= Mark(cfg, rs) - rs[0].now
    decreases |rs|
  {
    var n := |rs| - 1;
    if n == 0 {
      assert After(cfg, rs[..0]) == State(0, None);
      assert Ups(cfg, rs[..0]) == 0;
    } else {
      UpsBudget(cfg, rs[..n]);
      MarkMoves(cfg, rs);
    }
  }

  lemma PaidWithin(n: nat, recover: real, time: real)
    requires Paid(n, recover) <= time
    ensures n as real * recover <= time
  {
    PaidIs(n, recover);
  }

  /** A run of length T steps up at most T / recover times. */
  lemma StepUpRate(cfg: Config, rs: seq<Reading>, n: nat, recover: real, time: real)
    requires cfg.steps != [] && rs != [] && ClockRuns(rs)
    requires n == Ups(cfg, rs) && recover == cfg.recover && time == rs[|rs| - 1].now - rs[0].now
    ensures n as real * recover <= time
  {
    UpsPaid(cfg, rs, n, time);
    PaidWithin(n, recover, time);
  }

  lemma UpsPaid(cfg: Config, rs: seq<Reading>, n: nat, time: real)
    requires cfg.steps != [] && rs != [] && ClockRuns(rs)
    requires n == Ups(cfg, rs) && time == rs[|rs| - 1].now - rs[0].now
    ensures Paid(n, cfg.recover) <= time
  {
    UpsBudget(cfg, rs);
  }

  // ---------------------------------------------------------------- reaction to heat and cold

  function Valid(rs: seq<Reading>): nat {
    if rs == [] then 0 else Valid(rs[..|rs| - 1]) + if rs[|rs| - 1].temp.Some? then 1 else 0
  }

  predicate AllHot(cfg: Config, rs: seq<Reading>) {
    forall r | r in rs :: r.temp.Some? ==> r.temp.value >= cfg.danger
  }

  function Min(a: int, b: int): int {
    if a <= b then a else b
  }

  /** The recovery branch is taken by this reading: it counts as cool, the limit is the last
      step and the recovery clock has run out. */
  predicate LiftsAtLast(cfg: Config, s: State, r: Reading) {
    && r.temp.Some? && r.temp.value <= cfg.cool && 0 < s.idx == Last(cfg)
    && s.coolSince.Some? && r.now - s.coolSince.value >= cfg.recover
  }

  /** One hot reading takes the cap two steps down, unless it lifts it. */
  lemma HotStepIff(cfg: Config, s: State, r: Reading)
    requires 0 <= s.idx <= Last(cfg) && r.temp.Some? && r.temp.value >= cfg.danger
    ensures Step(cfg, s, r).idx == Min(s.idx + 2, Last(cfg)) <==> !LiftsAtLast(cfg, s, r)
  {
  }

  /** Where k valid hot readings, with failed polls between them, must have taken the cap. */
  function Expected(cfg: Config, rs: seq<Reading>, hot: seq<Reading>): int {
    Min(After(cfg, rs).idx + 2 * Valid(hot), Last(cfg))
  }

  /** Every reading of the run leaves the cap where it must be. */
  predicate OnTrack(cfg: Config, rs: seq<Reading>, hot: seq<Reading>) {
    After(cfg, rs + hot).idx == Expected(cfg, rs, hot) && (hot == [] || OnTrack(cfg, rs, hot[..|hot| - 1]))
  }

  predicate NeverLifts(cfg: Config, rs: seq<Reading>, hot: seq<Reading>) {
    hot == []
    || (!LiftsAtLast(cfg, After(cfg, rs + hot[..|hot| - 1]), hot[|hot| - 1]) && NeverLifts(cfg, rs, hot[..|hot| - 1]))
  }

  lemma OneMoreHot(cfg: Config, rs: seq<Reading>, hot: seq<Reading>, r: Reading)
    requires cfg.steps != [] && (r.temp.Some? ==> r.temp.value >= cfg.danger)
    requires After(cfg, rs + hot).idx == Expected(cfg, rs, hot)
    ensures After(cfg, rs + (hot + [r])).idx == Expected(cfg, rs, hot + [r])
      <==> !LiftsAtLast(cfg, After(cfg, rs + hot), r)
  {
    var all := rs + (hot + [r]);
    assert all[..|all| - 1] == rs + hot && all[|all| - 1] == r;
    assert (hot + [r])[..|hot|] == hot;
    InRange(cfg, rs);
    InRange(cfg, rs + hot);
    if r.temp.Some? {
      HotStepIff(cfg, After(cfg, rs + hot), r);
    }
  }

  /** Over a whole run of hot readings, whatever the thresholds: every reading of it finds
      and leaves the cap two steps down for each valid reading so far, to the last step at
      most, if and only if none of them takes the recovery branch at the last step. */
  lemma {:induction false} DangerRunIff(cfg: Config, rs: seq<Reading>, hot: seq<Reading>)
    requires cfg.steps != [] && AllHot(cfg, hot)
    ensures OnTrack(cfg, rs, hot) <==> NeverLifts(cfg, rs, hot)
    decreases |hot|
  {
    InRange(cfg, rs);
    if hot == [] {
      assert rs + hot == rs;
    } else {
      var before, r := hot[..|hot| - 1], hot[|hot| - 1];
      assert hot == before + [r] && r in hot;
      DangerRunIff(cfg, rs, before);
      if OnTrack(cfg, rs, before) {
        OneMoreHot(cfg, rs, before, r);
      }
    }
  }

  lemma {:induction false} CoolBelowDanger(cfg: Config, rs: seq<Reading>, hot: seq<Reading>)
    requires cfg.cool < cfg.danger && AllHot(cfg, hot)
    ensures NeverLifts(cfg, rs, hot)
  {
    if hot != [] {
      assert hot[|hot| - 1] in hot;
      CoolBelowDanger(cfg, rs, hot[..|hot| - 1]);
    }
  }

  /** With the cool threshold below the danger band none does, so k valid hot readings move
      step i to min(i + 2k, last). */
  lemma DangerRun(cfg: Config, rs: seq<Reading>, hot: seq<Reading>)
    requires cfg.steps != [] && cfg.cool < cfg.danger && AllHot(cfg, hot)
    ensures After(cfg, rs + hot).idx == Expected(cfg, rs, hot)
  {
    CoolBelowDanger(cfg, rs, hot);
    DangerRunIff(cfg, rs, hot);
  }

  /** With thresholds that overlap, three readings in the danger band end above the last
      step: the third one counts as cool for long enough. */
  lemma OverlapLifts(hot: seq<Reading>)
    requires hot == [Reading(Some(84.0), 0.0)] + [Reading(Some(84.0), 2.0)] + [Reading(Some(84.0), 4.0)]
    ensures var cfg := Config(80.0, 83.0, 90.0, [3003, 2400], 2.0);
      AllHot(cfg, hot) && After(cfg, hot).idx == 0 && Expected(cfg, [], hot) == 1
  {
    var cfg := Config(80.0, 83.0, 90.0, [3003, 2400], 2.0);
    var a, b, c := Reading(Some(84.0), 0.0), Reading(Some(84.0), 2.0), Reading(Some(84.0), 4.0);
    AfterSnoc(cfg, [], a);
    AfterSnoc(cfg, [a], b);
    AfterSnoc(cfg, [a] + [b], c);
    assert [] + [a] == [a] && hot == [a] + [b] + [c];
  }

  lemma AfterSnoc(cfg: Config, rs: seq<Reading>, r: Reading)
    ensures After(cfg, rs + [r]) == Step(cfg, After(cfg, rs), r)
    ensures Valid(rs + [r]) == Valid(rs) + if r.temp.Some? then 1 else 0
  {
    assert (rs + [r])[..|rs|] == rs;
  }

  /** Valid readings in the warning band or above it. */
  predicate AllWarm(cfg: Config, rs: seq<Reading>) {
    forall r | r in rs :: r.temp.Some? ==> r.temp.value >= cfg.warn || r.temp.value >= cfg.danger
  }

  /** The steps that warm readings call for: one each, two in the danger band. */
  function StepsDown(cfg: Config, rs: seq<Reading>): nat {
    if rs == [] then 0
    else
      var r := rs[|rs| - 1];
      StepsDown(cfg, rs[..|rs| - 1]) + if r.temp.None? then 0 else if r.temp.value >= cfg.danger then 2 else 1
  }

  /** Warm readings, with failed polls between them, take the cap down one step each and two
      in the danger band, to the last step at most. */
  lemma {:induction false} WarmRun(cfg: Config, rs: seq<Reading>, warm: seq<Reading>)
    requires cfg.steps != [] && cfg.cool < cfg.warn && cfg.cool < cfg.danger && AllWarm(cfg, warm)
    ensures After(cfg, rs + warm).idx == Min(After(cfg, rs).idx + StepsDown(cfg, warm), Last(cfg))
    decreases |warm|
  {
    InRange(cfg, rs);
    if warm == [] {
      assert rs + warm == rs;
    } else {
      var before, r := warm[..|warm| - 1], warm[|warm| - 1];
      assert warm == before + [r] && r in warm && rs + warm == rs + before + [r];
      WarmRun(cfg, rs, before);
      AfterSnoc(cfg, rs + before, r);
    }
  }

  lemma {:induction false} WarnCounts(cfg: Config, warm: seq<Reading>)
    requires forall r | r in warm :: r.temp.Some? ==> r.temp.value < cfg.danger
    ensures StepsDown(cfg, warm) == Valid(warm)
  {
    if warm != [] {
      assert warm[|warm| - 1] in warm;
      WarnCounts(cfg, warm[..|warm| - 1]);
    }
  }

  /** So k valid readings between warning and danger move step i to min(i + k, last). */
  lemma WarnRun(cfg: Config, rs: seq<Reading>, warm: seq<Reading>)
    requires cfg.steps != [] && cfg.cool < cfg.warn && cfg.cool < cfg.danger
    requires forall r | r in warm :: r.temp.Some? ==> cfg.warn <= r.temp.value < cfg.danger
    ensures After(cfg, rs + warm).idx == Min(After(cfg, rs).idx + Valid(warm), Last(cfg))
  {
    WarmRun(cfg, rs, warm);
    WarnCounts(cfg, warm);
  }

  /** Between the cool threshold and the warning one nothing moves, and a valid reading ends
      any recovery under way. */
  lemma {:induction false} MildRun(cfg: Config, rs: seq<Reading>, mild: seq<Reading>)
    requires forall r | r in mild :: r.temp.Some? ==> cfg.cool < r.temp.value < cfg.warn && r.temp.value < cfg.danger
    ensures After(cfg, rs + mild).idx == After(cfg, rs).idx
    ensures Valid(mild) > 0 ==> After(cfg, rs + mild).coolSince == None
    decreases |mild|
  {
    if mild == [] {
      assert rs + mild == rs;
    } else {
      var before, r := mild[..|mild| - 1], mild[|mild| - 1];
      assert mild == before + [r] && r in mild && rs + mild == rs + before + [r];
      MildRun(cfg, rs, before);
      AfterSnoc(cfg, rs + before, r);
      AfterSnoc(cfg, before, r);
    }
  }

  // ---------------------------------------------------------------- the caps asked for

  /** The readings that change the step. */
  function Changes(cfg: Config, rs: seq<Reading>): seq<nat> {
    if rs == [] then []
    else
      var n := |rs| - 1;
      Changes(cfg, rs[..n]) + if After(cfg, rs[..n]).idx != After(cfg, rs).idx then [n] else []
  }

  /** The caps asked for: the fastest first, then for each reading that changes the step, in
      order, the one of the new step; so that the last one is the step held. */
  lemma {:induction false} CapsAre(cfg: Config, rs: seq<Reading>)
    requires cfg.steps != []
    ensures var caps, at := Caps(cfg, rs), Changes(cfg, rs);
      && |caps| == 1 + |at| && caps[0] == cfg.steps[0]
      && (forall j | 0 <= j < |at| :: at[j] < |rs| && 0 <= IdxAt(cfg, rs, at[j] + 1) <= Last(cfg)
            && caps[j + 1] == cfg.steps[IdxAt(cfg, rs, at[j] + 1)])
    ensures 0 <= After(cfg, rs).idx <= Last(cfg) && Caps(cfg, rs)[|Caps(cfg, rs)| - 1] == cfg.steps[After(cfg, rs).idx]
    decreases |rs|
  {
    InRange(cfg, rs);
    if rs == [] {
      assert After(cfg, rs) == State(0, None);
    } else {
      var n := |rs| - 1;
      CapsAre(cfg, rs[..n]);
      var before := Changes(cfg, rs[..n]);
      assert rs[..n + 1] == rs;
      forall j | 0 <= j < |before| ensures IdxAt(cfg, rs, before[j] + 1) == IdxAt(cfg, rs[..n], before[j] + 1) {
        assert rs[..n][..before[j] + 1] == rs[..before[j] + 1];
      }
    }
  }

  /** No valid reading above the cool threshold. */
  predicate AllCool(cfg: Config, rs: seq<Reading>) {
    forall r | r in rs :: r.temp.Some? ==> r.temp.value <= cfg.cool
  }

  lemma CoolStep(cfg: Config, s: State, r: Reading)
    requires cfg.cool < cfg.warn && cfg.cool < cfg.danger && s.idx > 0
    requires r.temp.Some? && r.temp.value <= cfg.cool
    ensures var q := Step(cfg, s, r);
      || (q.idx == s.idx - 1 && s.coolSince.Some? && r.now - s.coolSince.value >= cfg.recover)
      || (q.idx == s.idx && q.coolSince == (if s.coolSince.Some? then s.coolSince else Some(r.now))
          && (s.coolSince.Some? ==> r.now - s.coolSince.value < cfg.recover))
  {
  }

  /** While nothing has stepped, a cool spell keeps a clock from its first reading or before. */
  lemma {:induction false} CoolSpell(cfg: Config, rs: seq<Reading>, cold: seq<Reading>)
    requires cfg.steps != [] && cfg.cool < cfg.warn && cfg.cool < cfg.danger
    requires cold != [] && AllCool(cfg, cold) && ClockRuns(rs + cold) && After(cfg, rs).idx > 0
    requires cold[0].temp.Some?
    ensures var q := After(cfg, rs + cold);
      || q.idx < After(cfg, rs).idx
      || (q.idx == After(cfg, rs).idx && q.coolSince.Some? && q.coolSince.value <= cold[0].now
          && (|cold| > 1 && cold[|cold| - 1].temp.Some? ==> cold[|cold| - 1].now - q.coolSince.value < cfg.recover))
    decreases |cold|
  {
    var n := |cold| - 1;
    var all := rs + cold;
    assert all[..|all| - 1] == rs + cold[..n] && all[|all| - 1] == cold[n];
    assert cold[n] in cold;
    var s := After(cfg, rs + cold[..n]);
    assert After(cfg, all) == Step(cfg, s, cold[n]);
    if n == 0 {
      assert rs + cold[..0] == rs;
      CoolStep(cfg, s, cold[n]);
      ClockIsPast(cfg, all, |rs|);
    } else {
      assert forall k | 0 <= k < |all| - 1 :: (rs + cold[..n])[k] == all[k];
      CoolSpell(cfg, rs, cold[..n]);
      if cold[n].temp.Some? {
        NeverSlower(cfg, s, cold[n]);
        if s.idx == After(cfg, rs).idx {
          CoolStep(cfg, s, cold[n]);
        }
      }
    }
  }

  /** The recovery clock was started no later than now. */
  lemma {:induction false} ClockIsPast(cfg: Config, rs: seq<Reading>, i: nat)
    requires i < |rs| && ClockRuns(rs)
    ensures var s := After(cfg, rs[..i]); s.coolSince.Some? ==> s.coolSince.value <= rs[i].now
    decreases i
  {
    if i > 0 {
      AfterNext(cfg, rs, i - 1);
      ClockIsPast(cfg, rs, i - 1);
      assert rs[i - 1].now <= rs[i].now;
    }
  }

  lemma NeverSlower(cfg: Config, s: State, r: Reading)
    requires cfg.cool < cfg.warn && cfg.cool < cfg.danger && r.temp.Some? && r.temp.value <= cfg.cool
    ensures Step(cfg, s, r).idx <= s.idx
  {
  }

  /** A limited clock is lifted by a cool spell of recover seconds, failed polls or not. */
  lemma CoolLifts(cfg: Config, rs: seq<Reading>, cold: seq<Reading>)
    requires cfg.steps != [] && cfg.cool < cfg.warn && cfg.cool < cfg.danger
    requires |cold| > 1 && AllCool(cfg, cold) && ClockRuns(rs + cold) && After(cfg, rs).idx > 0
    requires cold[0].temp.Some? && cold[|cold| - 1].temp.Some?
    requires cold[|cold| - 1].now - cold[0].now >= cfg.recover
    ensures After(cfg, rs + cold).idx < After(cfg, rs).idx
  {
    CoolSpell(cfg, rs, cold);
  }
}
