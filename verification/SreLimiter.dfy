/** What the restart limiter still promises when turns of several pods overlap: its counter is
    read first, then the target is restarted, and then the restart is counted. */
module SreLimiter {
  import opened Text
  import opened KeyStore
  import Detector
  import opened SreLoop
  import opened SreRuns

  // ---------- Counting restarts ----------

  /** Restarts of a target at times in `[from, from + window)`. */
  function RestartsIn(log: seq<Event>, key: string, from: Time, window: Time): nat {
    if log == [] then 0
    else
      var last := log[|log| - 1];
      RestartsIn(log[..|log| - 1], key, from, window)
      + if Is(last, Restarted, key) && from <= last.time < from + window then 1 else 0
  }

  lemma {:induction false} RestartsAppend(log: seq<Event>, events: seq<Event>, key: string, from: Time, window: Time)
    ensures RestartsIn(log + events, key, from, window)
         == RestartsIn(log, key, from, window) + RestartsIn(events, key, from, window)
  {
    if events == [] {
      assert log + events == log;
    } else {
      assert (log + events)[..|log + events| - 1] == log + events[..|events| - 1];
      RestartsAppend(log, events[..|events| - 1], key, from, window);
    }
  }

  lemma {:induction false} NoRestarts(events: seq<Event>, key: string, from: Time, window: Time)
    requires forall e | e in events :: !Is(e, Restarted, key)
    ensures RestartsIn(events, key, from, window) == 0
  {
    if events != [] {
      assert events[|events| - 1] in events;
      NoRestarts(events[..|events| - 1], key, from, window);
    }
  }

  /** The step restarts the target. */
  predicate Restarts(s: State, a: Action, key: string) {
    a.CarryOut? && PhaseOf(s, a.pod).Cleared? && PhaseOf(s, a.pod).n.checked == key
  }

  lemma RestartsAfter(cfg: Config, s: State, a: Action, key: string, from: Time)
    requires Enabled(s, a)
    ensures RestartsIn(Step(cfg, s, a).log, key, from, cfg.window) == RestartsIn(s.log, key, from, cfg.window)
      + if Restarts(s, a, key) && from <= a.now < from + cfg.window then 1 else 0
  {
    var events := EventsOf(cfg, s, a);
    RestartsAppend(s.log, events, key, from, cfg.window);
    if Restarts(s, a, key) {
      OneRestart(PhaseOf(s, a.pod).n.incident, key, a.now, from, cfg.window);
    } else {
      OthersRestartNothing(cfg, s, a, key);
      NoRestarts(events, key, from, cfg.window);
    }
  }

  lemma OneRestart(incident: string, key: string, now: Time, from: Time, window: Time)
    ensures RestartsIn([Event(Restarted, now, key), Event(Acted, now, incident)], key, from, window)
         == if from <= now < from + window then 1 else 0
  {
    var first, second := [Event(Restarted, now, key)], [Event(Acted, now, incident)];
    assert [Event(Restarted, now, key), Event(Acted, now, incident)] == first + second;
    RestartsAppend(first, second, key, from, window);
    assert first[..0] == [] && second[..0] == [];
  }

  lemma OthersRestartNothing(cfg: Config, s: State, a: Action, key: string)
    requires Enabled(s, a) && !Restarts(s, a, key)
    ensures forall e | e in EventsOf(cfg, s, a) :: !Is(e, Restarted, key)
  {
  }

  // ---------- Tries that are open ----------

  /** The pods in the phases that `f` holds of. */
  function PodsIn(s: State, f: Phase -> bool): set<string> {
    set p | p in s.pods && f(s.pods[p].phase)
  }

  lemma PodsAfter(s: State, t: State, pod: string, f: Phase -> bool)
    requires !f(Idle) && forall p | p != pod :: PhaseOf(t, p) == PhaseOf(s, p)
    ensures |PodsIn(t, f)| + (if f(PhaseOf(s, pod)) then 1 else 0)
         == |PodsIn(s, f)| + (if f(PhaseOf(t, pod)) then 1 else 0)
  {
    InPods(s, f);
    InPods(t, f);
    forall p | p != pod ensures p in PodsIn(s, f) <==> p in PodsIn(t, f) {
      assert PhaseOf(t, p) == PhaseOf(s, p);
    }
    AllButOne(PodsIn(s, f), PodsIn(t, f), pod);
  }

  lemma InPods(s: State, f: Phase -> bool)
    requires !f(Idle)
    ensures forall p :: p in PodsIn(s, f) <==> f(PhaseOf(s, p))
  {
  }

  lemma AllButOne<T>(a: set<T>, b: set<T>, x: T)
    requires forall y | y != x :: y in a <==> y in b
    ensures |b| + (if x in a then 1 else 0) == |a| + (if x in b then 1 else 0)
  {
    assert a - {x} == b - {x};
    WithOne(a, x);
    WithOne(b, x);
  }

  lemma WithOne<T>(xs: set<T>, x: T)
    ensures |xs| == |xs - {x}| + if x in xs then 1 else 0
  {
    if x in xs {
      assert xs == (xs - {x}) + {x};
    } else {
      assert xs == xs - {x};
    }
  }

  /** A restart of the target was allowed and comes next. */
  function ClearedFor(key: string): Phase -> bool {
    (phase: Phase) => phase.Cleared? && phase.n.checked == key
  }

  /** A restart of the target was tried and is not counted yet. */
  function TriedFor(key: string): Phase -> bool {
    (phase: Phase) => phase.Tried? && phase.n.recorded == key
  }

  function ClearedPods(s: State, key: string): nat {
    |PodsIn(s, ClearedFor(key))|
  }

  function TriedPods(s: State, key: string): nat {
    |PodsIn(s, TriedFor(key))|
  }

  /** A try of the target is open from the check that allows it until it is counted. */
  function OpenTries(s: State, key: string): nat {
    ClearedPods(s, key) + TriedPods(s, key)
  }

  /** The step checks the limit of the target and allows a restart. */
  predicate Clears(cfg: Config, s: State, a: Action, key: string) {
    && a.Act? && a.choice.Restart? && PhaseOf(s, a.pod).Looked? && PhaseOf(s, a.pod).n.checked == key
    && !LimitReached(cfg, s.keys, key, a.now)
  }

  /** The step counts a try of the target, be it a restart or a refused one. */
  predicate Counts(s: State, a: Action, key: string) {
    && a.Record? && (PhaseOf(s, a.pod).Tried? || PhaseOf(s, a.pod).Refused?)
    && PhaseOf(s, a.pod).n.recorded == key
  }

  /** Whenever a restart of the target is allowed, at most `c` tries of it are open. */
  ghost predicate OpenAtMost(cfg: Config, run: seq<State>, actions: seq<Action>, i: nat, key: string, c: nat)
    requires i <= |actions| < |run|
  {
    forall k | 0 <= k < i && Clears(cfg, run[k], actions[k], key) :: OpenTries(run[k], key) <= c
  }

  lemma OthersStay(cfg: Config, s: State, a: Action)
    requires Enabled(s, a)
    ensures if a.SavePr? || a.DeletePr? then Step(cfg, s, a).pods == s.pods
            else forall p | p != a.pod :: PhaseOf(Step(cfg, s, a), p) == PhaseOf(s, p)
  {
  }

  /** What a step does to the open tries of a target. */
  lemma OpenAfter(cfg: Config, s: State, a: Action, key: string)
    requires Enabled(s, a) && Keyed(s)
    ensures var t := Step(cfg, s, a);
      && ClearedPods(t, key) == ClearedPods(s, key)
           + (if Clears(cfg, s, a, key) then 1 else if Restarts(s, a, key) then -1 else 0)
      && TriedPods(t, key) == TriedPods(s, key)
           + (if Restarts(s, a, key) then 1 else if Counts(s, a, key) && PhaseOf(s, a.pod).Tried? then -1 else 0)
  {
    OthersStay(cfg, s, a);
    if !a.SavePr? && !a.DeletePr? {
      var t := Step(cfg, s, a);
      PodsAfter(s, t, a.pod, ClearedFor(key));
      PodsAfter(s, t, a.pod, TriedFor(key));
      PhaseAfter(cfg, s, a, key);
    }
  }

  lemma PhaseAfter(cfg: Config, s: State, a: Action, key: string)
    requires Enabled(s, a) && Keyed(s) && !a.SavePr? && !a.DeletePr?
    ensures var before, after := PhaseOf(s, a.pod), PhaseOf(Step(cfg, s, a), a.pod);
      && (ClearedFor(key)(before) ==> Restarts(s, a, key) || ClearedFor(key)(after))
      && (ClearedFor(key)(after) ==> Clears(cfg, s, a, key) || ClearedFor(key)(before))
      && (Clears(cfg, s, a, key) ==> ClearedFor(key)(after) && !ClearedFor(key)(before))
      && (Restarts(s, a, key) ==>
            ClearedFor(key)(before) && !ClearedFor(key)(after) && TriedFor(key)(after) && !TriedFor(key)(before))
      && (TriedFor(key)(before) ==> Counts(s, a, key) || TriedFor(key)(after))
      && (TriedFor(key)(after) ==> Restarts(s, a, key) || TriedFor(key)(before))
      && (Counts(s, a, key) && before.Tried? ==> TriedFor(key)(before) && !TriedFor(key)(after))
  {
    assert PhaseOf(s, a.pod).Idle? || Agreeing(PhaseOf(s, a.pod).n);
  }

  lemma CounterAfter(cfg: Config, s: State, a: Action, key: string)
    requires Enabled(s, a)
    ensures var before, after := Get(s.keys.restarts, key), Get(Step(cfg, s, a).keys.restarts, key);
      after == if Counts(s, a, key) then Some(Expire(Incr(before, a.now), a.now, cfg.window)) else before
  {
  }

  // ---------- The invariant ----------

  /** The counter is live until `until` and has counted `n` tries. */
  predicate Covered(slot: Slot<nat>, n: int, until: Time) {
    slot.Some? && slot.value.expiry.Some? && until <= slot.value.expiry.value && n <= slot.value.value
  }

  function Limit(cfg: Config): nat {
    if cfg.maxRestarts > 0 then cfg.maxRestarts else 0
  }

  /** Of the `n` restarts in the interval all but the `tried` ones are counted; while the interval
      lasts the counter is live and the `cleared` ones still fit. */
  predicate LimitHolds(
    cfg: Config, n: nat, cleared: nat, tried: nat, slot: Slot<nat>, clock: Time, from: Time, c: nat)
  {
    var until := from + cfg.window;
    && n <= Limit(cfg) + c
    && (n > 0 ==> from <= clock)
    && (clock < until ==> n + cleared <= Limit(cfg) + c)
    && (clock < until && n > tried ==> Covered(slot, n - tried, until))
  }

  ghost predicate LimitInv(cfg: Config, s: State, key: string, from: Time, c: nat) {
    LimitHolds(
      cfg, RestartsIn(s.log, key, from, cfg.window), ClearedPods(s, key), TriedPods(s, key),
      Get(s.keys.restarts, key), s.clock, from, c)
  }

  /** A restart is allowed below the limit. */
  lemma OneMoreCleared(
    cfg: Config, n: nat, cleared: nat, tried: nat, slot: Slot<nat>, clock: Time, now: Time, from: Time, c: nat)
    requires LimitHolds(cfg, n, cleared, tried, slot, clock, from, c) && clock <= now && cleared + tried <= c
    requires (if Live(slot, now) then slot.value.value else 0) < cfg.maxRestarts
    ensures LimitHolds(cfg, n, cleared + 1, tried, slot, now, from, c)
  {
  }

  /** It is carried out. */
  lemma OneMoreTried(
    cfg: Config, n: nat, cleared: nat, tried: nat, slot: Slot<nat>, clock: Time, now: Time, from: Time, c: nat)
    requires LimitHolds(cfg, n, cleared + 1, tried, slot, clock, from, c) && clock <= now
    ensures LimitHolds(
      cfg, n + if from <= now < from + cfg.window then 1 else 0, cleared, tried + 1, slot, now, from, c)
  {
  }

  /** It is counted. */
  lemma OneMoreCounted(
    cfg: Config, n: nat, cleared: nat, tried: nat, slot: Slot<nat>, clock: Time, now: Time, from: Time, c: nat,
    refused: bool)
    requires LimitHolds(cfg, n, cleared, if refused then tried else tried + 1, slot, clock, from, c) && clock <= now
    ensures LimitHolds(cfg, n, cleared, tried, Some(Expire(Incr(slot, now), now, cfg.window)), now, from, c)
  {
  }

  lemma LimitKept(cfg: Config, s: State, a: Action, key: string, from: Time, c: nat)
    requires Enabled(s, a) && Keyed(s) && LimitInv(cfg, s, key, from, c)
    requires Clears(cfg, s, a, key) ==> OpenTries(s, key) <= c
    ensures LimitInv(cfg, Step(cfg, s, a), key, from, c)
  {
    OpenAfter(cfg, s, a, key);
    RestartsAfter(cfg, s, a, key, from);
    CounterAfter(cfg, s, a, key);
    var n, slot := RestartsIn(s.log, key, from, cfg.window), Get(s.keys.restarts, key);
    var t := Step(cfg, s, a);
    if Clears(cfg, s, a, key) {
      OneMoreCleared(cfg, n, ClearedPods(s, key), TriedPods(s, key), slot, s.clock, a.now, from, c);
    } else if Restarts(s, a, key) {
      OneMoreTried(cfg, n, ClearedPods(t, key), TriedPods(s, key), slot, s.clock, a.now, from, c);
    } else if Counts(s, a, key) {
      OneMoreCounted(
        cfg, n, ClearedPods(s, key), TriedPods(t, key), slot, s.clock, a.now, from, c, PhaseOf(s, a.pod).Refused?);
    }
  }

  lemma {:induction false} RunLimited(
    cfg: Config, run: seq<State>, actions: seq<Action>, i: nat, key: string, from: Time, c: nat)
    requires IsRun(cfg, run, actions) && i < |run| && OpenAtMost(cfg, run, actions, i, key, c)
    ensures LimitInv(cfg, run[i], key, from, c)
  {
    if i == 0 {
      NoneOpen(run[0], key);
    } else {
      RunLimited(cfg, run, actions, i - 1, key, from, c);
      RunKeyed(cfg, run, actions, i - 1);
      LimitKept(cfg, run[i - 1], actions[i - 1], key, from, c);
    }
  }

  lemma NoneOpen(s: State, key: string)
    requires forall p :: !PhaseOf(s, p).Cleared? && !PhaseOf(s, p).Tried?
    ensures OpenTries(s, key) == 0
  {
    InPods(s, ClearedFor(key));
    InPods(s, TriedFor(key));
    assert PodsIn(s, ClearedFor(key)) == {} && PodsIn(s, TriedFor(key)) == {};
  }

  // ---------- Main results ----------

  /** In every run: when at most `c` tries of a target are open whenever another one is allowed,
      the target is restarted at most `maxRestarts + c` times in any interval of one window's
      length. So the limiter is a sliding window when no two tries are open at once. */
  lemma RestartsAreLimited(
    cfg: Config, run: seq<State>, actions: seq<Action>, i: nat, key: string, from: Time, c: nat)
    requires IsRun(cfg, run, actions) && i < |run| && OpenAtMost(cfg, run, actions, i, key, c)
    ensures RestartsIn(run[i].log, key, from, cfg.window) <= Limit(cfg) + c
  {
    RunLimited(cfg, run, actions, i, key, from, c);
  }

  /** In any run that has come to where several pods have looked and are going to restart one
      target that is below its limit, all of them can restart it at once. */
  lemma {:induction false} AllRestart(
    cfg: Config, run: seq<State>, actions: seq<Action>, pods: seq<string>, key: string)
    returns (run': seq<State>, actions': seq<Action>)
    requires IsRun(cfg, run, actions) && Distinct(pods) && cfg.window > 0
    requires forall p | p in pods ::
      PhaseOf(run[|actions|], p).Looked? && PhaseOf(run[|actions|], p).n.checked == key
    requires !LimitReached(cfg, run[|actions|].keys, key, run[|actions|].clock)
    ensures IsRun(cfg, run', actions') && run <= run' && actions <= actions'
    ensures var s, t := run[|actions|], run'[|actions'|];
      RestartsIn(t.log, key, s.clock, cfg.window) == RestartsIn(s.log, key, s.clock, cfg.window) + |pods|
      && t.clock == s.clock && t.keys == s.keys && OpenTries(t, key) == OpenTries(s, key) + |pods|
      && forall p | p !in pods :: PhaseOf(t, p) == PhaseOf(s, p)
    ensures forall c: nat
      | OpenAtMost(cfg, run, actions, |actions|, key, c) && OpenTries(run[|actions|], key) + |pods| <= c + 1 ::
      OpenAtMost(cfg, run', actions', |actions'|, key, c)
  {
    if pods == [] {
      run', actions' := run, actions;
    } else {
      var front, last := pods[..|pods| - 1], pods[|pods| - 1];
      var run1, actions1 := AllRestart(cfg, run, actions, front, key);
      assert last !in front;
      run', actions' := OneRestarts(cfg, run1, actions1, last, key, run[|actions|].clock);
      assert forall p | p !in pods :: p !in front;
    }
  }

  /** A check and a restart, one after the other. */
  lemma OneRestarts(cfg: Config, run: seq<State>, actions: seq<Action>, pod: string, key: string, from: Time)
    returns (run': seq<State>, actions': seq<Action>)
    requires IsRun(cfg, run, actions) && cfg.window > 0
    requires var s := run[|actions|];
      && s.clock == from && !LimitReached(cfg, s.keys, key, s.clock)
      && PhaseOf(s, pod).Looked? && PhaseOf(s, pod).n.checked == key
    ensures IsRun(cfg, run', actions') && run <= run' && actions <= actions'
    ensures var s, t := run[|actions|], run'[|actions'|];
      RestartsIn(t.log, key, from, cfg.window) == RestartsIn(s.log, key, from, cfg.window) + 1
      && t.clock == s.clock && t.keys == s.keys && OpenTries(t, key) == OpenTries(s, key) + 1
      && PhaseOf(t, pod).Tried? && PhaseOf(t, pod).n.recorded == key
      && forall p | p != pod :: PhaseOf(t, p) == PhaseOf(s, p)
    ensures forall c: nat | OpenAtMost(cfg, run, actions, |actions|, key, c) && OpenTries(run[|actions|], key) <= c ::
      OpenAtMost(cfg, run', actions', |actions'|, key, c)
  {
    run', actions' := OneClears(cfg, run, actions, pod, key, from);
    run', actions' := OneCarriesOut(cfg, run', actions', pod, key, from);
  }

  lemma OneClears(cfg: Config, run: seq<State>, actions: seq<Action>, pod: string, key: string, from: Time)
    returns (run': seq<State>, actions': seq<Action>)
    requires IsRun(cfg, run, actions)
    requires var s := run[|actions|];
      && s.clock == from && !LimitReached(cfg, s.keys, key, s.clock)
      && PhaseOf(s, pod).Looked? && PhaseOf(s, pod).n.checked == key
    ensures IsRun(cfg, run', actions') && run <= run' && actions <= actions'
    ensures var s, t := run[|actions|], run'[|actions'|];
      RestartsIn(t.log, key, from, cfg.window) == RestartsIn(s.log, key, from, cfg.window)
      && t.clock == s.clock && t.keys == s.keys && OpenTries(t, key) == OpenTries(s, key) + 1
      && PhaseOf(t, pod).Cleared? && PhaseOf(t, pod).n.checked == key
      && forall p | p != pod :: PhaseOf(t, p) == PhaseOf(s, p)
    ensures forall c: nat | OpenAtMost(cfg, run, actions, |actions|, key, c) && OpenTries(run[|actions|], key) <= c ::
      OpenAtMost(cfg, run', actions', |actions'|, key, c)
  {
    var s, a := run[|actions|], Act(pod, Restart(false, false), run[|actions|].clock);
    run', actions' := OneMoreStep(cfg, run, actions, a);
    RunKeyed(cfg, run, actions, |actions|);
    RestartsAfter(cfg, s, a, key, from);
    OpenAfter(cfg, s, a, key);
  }

  lemma OneCarriesOut(cfg: Config, run: seq<State>, actions: seq<Action>, pod: string, key: string, from: Time)
    returns (run': seq<State>, actions': seq<Action>)
    requires IsRun(cfg, run, actions) && cfg.window > 0 && run[|actions|].clock == from
    requires PhaseOf(run[|actions|], pod).Cleared? && PhaseOf(run[|actions|], pod).n.checked == key
    ensures IsRun(cfg, run', actions') && run <= run' && actions <= actions'
    ensures var s, t := run[|actions|], run'[|actions'|];
      RestartsIn(t.log, key, from, cfg.window) == RestartsIn(s.log, key, from, cfg.window) + 1
      && t.clock == s.clock && t.keys == s.keys && OpenTries(t, key) == OpenTries(s, key)
      && PhaseOf(t, pod).Tried? && PhaseOf(t, pod).n.recorded == key
      && forall p | p != pod :: PhaseOf(t, p) == PhaseOf(s, p)
    ensures forall c: nat | OpenAtMost(cfg, run, actions, |actions|, key, c) ::
      OpenAtMost(cfg, run', actions', |actions'|, key, c)
  {
    var s, a := run[|actions|], CarryOut(pod, run[|actions|].clock);
    run', actions' := OneMoreStep(cfg, run, actions, a);
    RunKeyed(cfg, run, actions, |actions|);
    RestartsAfter(cfg, s, a, key, from);
    OpenAfter(cfg, s, a, key);
    assert Agreeing(PhaseOf(s, pod).n);
  }

  // ---------- The bound is exact ----------

  /** What the counter reads. */
  function Count(s: State, key: string): nat {
    var slot := Get(s.keys.restarts, key);
    if Live(slot, s.clock) then slot.value.value else 0
  }

  lemma OneRecords(cfg: Config, run: seq<State>, actions: seq<Action>, pod: string, key: string)
    returns (run': seq<State>, actions': seq<Action>)
    requires IsRun(cfg, run, actions) && cfg.window > 0 && run[|actions|].clock == 0
    requires PhaseOf(run[|actions|], pod).Tried? && PhaseOf(run[|actions|], pod).n.recorded == key
    ensures IsRun(cfg, run', actions') && run <= run' && actions <= actions'
    ensures var s, t := run[|actions|], run'[|actions'|];
      RestartsIn(t.log, key, 0, cfg.window) == RestartsIn(s.log, key, 0, cfg.window)
      && t.clock == 0 && OpenTries(t, key) == OpenTries(s, key) - 1 && Count(t, key) == Count(s, key) + 1
      && forall p | p != pod :: PhaseOf(t, p) == PhaseOf(s, p)
    ensures OpenAtMost(cfg, run, actions, |actions|, key, 0) ==> OpenAtMost(cfg, run', actions', |actions'|, key, 0)
  {
    var s, a := run[|actions|], Record(pod, 0);
    run', actions' := OneMoreStep(cfg, run, actions, a);
    RunKeyed(cfg, run, actions, |actions|);
    RestartsAfter(cfg, s, a, key, 0);
    OpenAfter(cfg, s, a, key);
    CounterAfter(cfg, s, a, key);
  }

  /** The pods look at the anomaly one after another, before anything else happens. */
  lemma {:induction false} AllLook(cfg: Config, a: Detector.Anomaly, pods: seq<string>)
    returns (run: seq<State>, actions: seq<Action>)
    requires Distinct(pods)
    ensures IsRun(cfg, run, actions)
    ensures var t := run[|actions|];
      && t.clock == 0 && t.keys == Keys(map[], map[], map[], map[]) && t.log == []
      && (forall p | p in pods :: PhaseOf(t, p) == Looked(KeysOf(cfg, a)))
      && (forall p | p !in pods :: PhaseOf(t, p).Idle?)
    ensures forall k | 0 <= k < |actions| :: actions[k].Look?
  {
    if pods == [] {
      run, actions := [State(0, Keys(map[], map[], map[], map[]), map[], [])], [];
    } else {
      var front, last := pods[..|pods| - 1], pods[|pods| - 1];
      run, actions := AllLook(cfg, a, front);
      assert last !in front;
      run, actions := OneLooks(cfg, run, actions, last, a);
      assert forall p | p in pods :: p == last || p in front;
    }
  }

  lemma OneLooks(cfg: Config, run: seq<State>, actions: seq<Action>, pod: string, a: Detector.Anomaly)
    returns (run': seq<State>, actions': seq<Action>)
    requires IsRun(cfg, run, actions) && PhaseOf(run[|actions|], pod).Idle?
    requires run[|actions|].clock == 0 && run[|actions|].keys.incidents == map[]
    ensures IsRun(cfg, run', actions') && actions' == actions + [Look(pod, a, 0)]
    ensures var s, t := run[|actions|], run'[|actions'|];
      && t.clock == 0 && t.keys == s.keys && t.log == s.log && PhaseOf(t, pod) == Looked(KeysOf(cfg, a))
      && forall p | p != pod :: PhaseOf(t, p) == PhaseOf(s, p)
  {
    run', actions' := OneMoreStep(cfg, run, actions, Look(pod, a, 0));
  }

  /** The first `i` of the pods that have looked restart the target and count it. */
  lemma {:induction false} SomeCounted(cfg: Config, a: Detector.Anomaly, pods: seq<string>, i: nat)
    returns (run: seq<State>, actions: seq<Action>)
    requires Distinct(pods) && cfg.window > 0 && i <= |pods| && i < cfg.maxRestarts
    ensures IsRun(cfg, run, actions)
    ensures var t, key := run[|actions|], KeysOf(cfg, a).checked;
      && t.clock == 0 && OpenTries(t, key) == 0 && Count(t, key) == i
      && RestartsIn(t.log, key, 0, cfg.window) == i
      && (forall j | i <= j < |pods| :: PhaseOf(t, pods[j]) == Looked(KeysOf(cfg, a)))
      && OpenAtMost(cfg, run, actions, |actions|, key, 0)
  {
    var key := KeysOf(cfg, a).checked;
    if i == 0 {
      run, actions := AllLook(cfg, a, pods);
      forall p ensures !PhaseOf(run[|actions|], p).Cleared? && !PhaseOf(run[|actions|], p).Tried? {
        assert p in pods || p !in pods;
      }
      NoneOpen(run[|actions|], key);
    } else {
      run, actions := SomeCounted(cfg, a, pods, i - 1);
      run, actions := OneRestarts(cfg, run, actions, pods[i - 1], key, 0);
      run, actions := OneRecords(cfg, run, actions, pods[i - 1], key);
    }
  }

  /** For every limit and every `c` there is a run that reaches it. */
  lemma BoundIsReached(cfg: Config, a: Detector.Anomaly, c: nat) returns (run: seq<State>, actions: seq<Action>)
    requires cfg.maxRestarts > 0 && cfg.window > 0
    ensures IsRun(cfg, run, actions)
    ensures var key := KeysOf(cfg, a).checked;
      && OpenAtMost(cfg, run, actions, |actions|, key, c)
      && RestartsIn(run[|actions|].log, key, 0, cfg.window) == Limit(cfg) + c
  {
    var key, i := KeysOf(cfg, a).checked, cfg.maxRestarts - 1;
    var pods := seq(i + c + 1, k requires 0 <= k < i + c + 1 => seq(k, _ => 'p'));
    assert Distinct(pods) by {
      assert forall k | 0 <= k < |pods| :: |pods[k]| == k;
    }
    run, actions := SomeCounted(cfg, a, pods, i);
    run, actions := AllRestart(cfg, run, actions, pods[i..], key);
  }
}
