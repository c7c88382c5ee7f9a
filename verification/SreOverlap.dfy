/** What the deduplication of incidents still promises when turns of several pods overlap: it
    looks a key up before the action and sets it after. */
module SreOverlap {
  import opened Text
  import opened KeyStore
  import opened SreLoop
  import opened SreRuns
  import Dedup

  /** The incident was looked up and found new; an action comes next. */
  predicate HasLooked(phase: Phase, incident: string) {
    (phase.Looked? || phase.Cleared?) && phase.n.incident == incident
  }

  predicate OfTurn(a: Action) {
    a.Act? || a.CarryOut?
  }

  /** The step acts on the incident: it carries a restart out, or does without one. */
  predicate ActsOn(cfg: Config, s: State, a: Action, incident: string) {
    && OfTurn(a)
    && HasLooked(PhaseOf(s, a.pod), incident)
    && (a.Act? ==> !a.choice.Restart? || LimitReached(cfg, s.keys, PhaseOf(s, a.pod).n.checked, a.now))
  }

  /** An action on the incident was taken and is not marked yet. */
  predicate Unmarked(phase: Phase, incident: string) {
    HasActed(phase) && phase.n.incident == incident
  }

  /** Until the second action, the pod of the first one has not marked the incident or that of
      the second has looked already. */
  ghost predicate Overlap(run: seq<State>, actions: seq<Action>, k: nat, n: nat, incident: string)
    requires k < n < |actions| < |run| && OfTurn(actions[k]) && OfTurn(actions[n])
  {
    forall m | k < m <= n ::
      Unmarked(PhaseOf(run[m], actions[k].pod), incident) || HasLooked(PhaseOf(run[m], actions[n].pod), incident)
  }

  predicate MarkedUntil(s: State, incident: string, until: Time) {
    var slot := Get(s.keys.incidents, incident);
    slot.Some? && slot.value.expiry.Some? && until <= slot.value.expiry.value
  }

  /** After an action at `time`, either its pod has still to mark the incident or the mark
      lasts its deduplication time from then on. */
  lemma MarkKept(cfg: Config, s: State, a: Action, pod: string, incident: string, time: Time)
    requires Enabled(s, a) && time <= s.clock
    requires Unmarked(PhaseOf(s, pod), incident) || MarkedUntil(s, incident, time + cfg.ttl(incident))
    ensures var t := Step(cfg, s, a);
      Unmarked(PhaseOf(t, pod), incident) || MarkedUntil(t, incident, time + cfg.ttl(incident))
    ensures MarkedUntil(s, incident, time + cfg.ttl(incident)) ==>
      MarkedUntil(Step(cfg, s, a), incident, time + cfg.ttl(incident))
  {
  }

  lemma {:induction false} ActedIsMarked(
    cfg: Config, run: seq<State>, actions: seq<Action>, k: nat, m: nat, incident: string)
    requires IsRun(cfg, run, actions) && k < m < |run| && ActsOn(cfg, run[k], actions[k], incident)
    ensures actions[k].now <= run[m].clock
    ensures Unmarked(PhaseOf(run[m], actions[k].pod), incident)
         || MarkedUntil(run[m], incident, actions[k].now + cfg.ttl(incident))
  {
    if k + 1 < m {
      ActedIsMarked(cfg, run, actions, k, m - 1, incident);
      MarkKept(cfg, run[m - 1], actions[m - 1], actions[k].pod, incident, actions[k].now);
    } else {
      assert run[m] == Step(cfg, run[k], actions[k]);
    }
  }

  /** A pod that looks after the mark was set finds it, unless it has expired. */
  lemma {:induction false} MarkIsFound(
    cfg: Config, run: seq<State>, actions: seq<Action>, m: nat, n: nat, pod: string, incident: string, time: Time)
    requires IsRun(cfg, run, actions) && m <= n < |run| && time <= run[m].clock
    requires MarkedUntil(run[m], incident, time + cfg.ttl(incident)) && !HasLooked(PhaseOf(run[m], pod), incident)
    ensures time <= run[n].clock && MarkedUntil(run[n], incident, time + cfg.ttl(incident))
    ensures HasLooked(PhaseOf(run[n], pod), incident) ==> time + cfg.ttl(incident) <= run[n].clock
  {
    if m < n {
      MarkIsFound(cfg, run, actions, m, n - 1, pod, incident, time);
      MarkKept(cfg, run[n - 1], actions[n - 1], pod, incident, time);
      LookFinds(cfg, run[n - 1], actions[n - 1], pod, incident, time + cfg.ttl(incident));
    }
  }

  lemma LookFinds(cfg: Config, s: State, a: Action, pod: string, incident: string, until: Time)
    requires Enabled(s, a) && MarkedUntil(s, incident, until)
    ensures var t := Step(cfg, s, a);
      && s.clock <= t.clock
      && (HasLooked(PhaseOf(t, pod), incident) ==> HasLooked(PhaseOf(s, pod), incident) || until <= t.clock)
  {
  }

  /** In every run: two actions on one incident are at least its deduplication time apart,
      unless their turns overlap. */
  lemma OnlyOverlapsRepeat(cfg: Config, run: seq<State>, actions: seq<Action>, k: nat, n: nat, incident: string)
    requires IsRun(cfg, run, actions) && k < n < |actions|
    requires ActsOn(cfg, run[k], actions[k], incident) && ActsOn(cfg, run[n], actions[n], incident)
    requires !Overlap(run, actions, k, n, incident)
    ensures actions[n].now - actions[k].now >= cfg.ttl(incident)
  {
    var m :| k < m <= n
      && !Unmarked(PhaseOf(run[m], actions[k].pod), incident) && !HasLooked(PhaseOf(run[m], actions[n].pod), incident);
    ActedIsMarked(cfg, run, actions, k, m, incident);
    MarkIsFound(cfg, run, actions, m, n, actions[n].pod, incident, actions[k].now);
  }

  /** Two actions on the incident in overlapping turns, sooner than its deduplication time. */
  ghost predicate RepeatsInOverlap(cfg: Config, run: seq<State>, actions: seq<Action>, i: nat, incident: string)
    requires i <= |actions| < |run|
  {
    exists k: nat, n: nat | k < n < i ::
      ActsOn(cfg, run[k], actions[k], incident) && ActsOn(cfg, run[n], actions[n], incident)
      && Overlap(run, actions, k, n, incident) && actions[n].now - actions[k].now < cfg.ttl(incident)
  }

  /** All actions on the incident are its deduplication time apart, said about the steps. */
  ghost predicate StepsSpaced(cfg: Config, run: seq<State>, actions: seq<Action>, i: nat, incident: string)
    requires i <= |actions| < |run|
  {
    forall k: nat, n: nat
      | k < n < i && ActsOn(cfg, run[k], actions[k], incident) && ActsOn(cfg, run[n], actions[n], incident) ::
      actions[n].now - actions[k].now >= cfg.ttl(incident)
  }

  predicate NoneActed(events: seq<Event>, incident: string) {
    forall e | e in events :: !Is(e, Acted, incident)
  }

  lemma StepActs(cfg: Config, s: State, a: Action, incident: string)
    requires Enabled(s, a)
    ensures var events := EventsOf(cfg, s, a);
      if ActsOn(cfg, s, a, incident) then
        && events != [] && events[|events| - 1] == Event(Acted, a.now, incident)
        && NoneActed(events[..|events| - 1], incident)
      else NoneActed(events, incident)
  {
  }

  /** The log shows the actions of the run. */
  lemma {:induction false} ActsLogged(cfg: Config, run: seq<State>, actions: seq<Action>, i: nat, incident: string)
    requires IsRun(cfg, run, actions) && i < |run|
    ensures forall e | e in run[i].log && Is(e, Acted, incident) ::
      exists k: nat :: k < i && ActsOn(cfg, run[k], actions[k], incident) && actions[k].now == e.time
    ensures forall k: nat | k < i && ActsOn(cfg, run[k], actions[k], incident) ::
      Event(Acted, actions[k].now, incident) in run[i].log
  {
    if i > 0 {
      ActsLogged(cfg, run, actions, i - 1, incident);
      var s, a := run[i - 1], actions[i - 1];
      var events := EventsOf(cfg, s, a);
      StepActs(cfg, s, a, incident);
      assert run[i].log == s.log + events;
      forall e | e in run[i].log && Is(e, Acted, incident)
        ensures exists k: nat :: k < i && ActsOn(cfg, run[k], actions[k], incident) && actions[k].now == e.time
      {
        if e !in s.log {
          assert ActsOn(cfg, s, a, incident);
          LastActed(events, incident, e);
        }
      }
    }
  }

  lemma LastActed(events: seq<Event>, incident: string, e: Event)
    requires e in events && Is(e, Acted, incident)
    requires events != [] ==> NoneActed(events[..|events| - 1], incident)
    ensures events != [] && e == events[|events| - 1]
  {
  }

  lemma SpacedNone(log: seq<Event>, events: seq<Event>, incident: string, ttl: Time)
    requires NoneActed(events, incident)
    ensures Spaced(log + events, Acted, Acted, incident, ttl) <==> Spaced(log, Acted, Acted, incident, ttl)
  {
    var all := log + events;
    forall j | |log| <= j < |all| ensures !Is(all[j], Acted, incident) {
      assert all[j] in events;
    }
    forall j | 0 <= j < |log| ensures all[j] == log[j] {
    }
  }

  lemma SpacedOne(log: seq<Event>, e: Event, incident: string, ttl: Time)
    requires Is(e, Acted, incident)
    ensures Spaced(log + [e], Acted, Acted, incident, ttl) <==>
      Spaced(log, Acted, Acted, incident, ttl)
      && forall d | d in log && Is(d, Acted, incident) :: e.time - d.time >= ttl
  {
    var all := log + [e];
    assert all[|log|] == e && forall j | 0 <= j < |log| :: all[j] == log[j];
    if Spaced(all, Acted, Acted, incident, ttl) {
      forall d | d in log && Is(d, Acted, incident) ensures e.time - d.time >= ttl {
        var j :| 0 <= j < |log| && log[j] == d;
        assert all[j] == d;
      }
    }
  }

  lemma {:induction false} LogSpaced(cfg: Config, run: seq<State>, actions: seq<Action>, i: nat, incident: string)
    requires IsRun(cfg, run, actions) && i < |run|
    ensures Spaced(run[i].log, Acted, Acted, incident, cfg.ttl(incident))
       <==> StepsSpaced(cfg, run, actions, i, incident)
  {
    if i == 0 {
      assert run[0].log == [];
    } else {
      var j := i - 1;
      LogSpaced(cfg, run, actions, j, incident);
      OneMoreAct(cfg, run, actions, j, incident);
      assert j + 1 == i;
    }
  }

  lemma OneMoreAct(cfg: Config, run: seq<State>, actions: seq<Action>, i: nat, incident: string)
    requires IsRun(cfg, run, actions) && i < |actions|
    requires Spaced(run[i].log, Acted, Acted, incident, cfg.ttl(incident))
        <==> StepsSpaced(cfg, run, actions, i, incident)
    ensures Spaced(run[i + 1].log, Acted, Acted, incident, cfg.ttl(incident))
       <==> StepsSpaced(cfg, run, actions, i + 1, incident)
  {
    var s, a, ttl := run[i], actions[i], cfg.ttl(incident);
    var events := EventsOf(cfg, s, a);
    StepActs(cfg, s, a, incident);
    if ActsOn(cfg, s, a, incident) {
      var front, last := events[..|events| - 1], events[|events| - 1];
      assert run[i + 1].log == (s.log + front) + [last];
      SpacedNone(s.log, front, incident, ttl);
      SpacedOne(s.log + front, last, incident, ttl);
      ActsLogged(cfg, run, actions, i, incident);
      assert forall d | d in s.log + front && Is(d, Acted, incident) :: d in s.log;
    } else {
      assert run[i + 1].log == s.log + events;
      SpacedNone(s.log, events, incident, ttl);
    }
  }

  /** In every run the log keeps the actions on an incident its deduplication time apart if and
      only if no two actions in overlapping turns come sooner. */
  lemma SpacedExactly(cfg: Config, run: seq<State>, actions: seq<Action>, i: nat, incident: string)
    requires IsRun(cfg, run, actions) && i < |run|
    ensures Spaced(run[i].log, Acted, Acted, incident, cfg.ttl(incident))
       <==> !RepeatsInOverlap(cfg, run, actions, i, incident)
  {
    LogSpaced(cfg, run, actions, i, incident);
    if !RepeatsInOverlap(cfg, run, actions, i, incident) {
      forall k: nat, n: nat
        | k < n < i && ActsOn(cfg, run[k], actions[k], incident) && ActsOn(cfg, run[n], actions[n], incident)
        ensures actions[n].now - actions[k].now >= cfg.ttl(incident)
      {
        if !Overlap(run, actions, k, n, incident) {
          OnlyOverlapsRepeat(cfg, run, actions, k, n, incident);
        }
      }
    }
  }

  /** From the look to the mark the pod is busy with the incident. */
  predicate Busy(phase: Phase, incident: string) {
    HasLooked(phase, incident) || Unmarked(phase, incident)
  }

  /** No two pods are busy with the incident at once. */
  ghost predicate Apart(s: State, incident: string) {
    forall p, q | p != q :: !Busy(PhaseOf(s, p), incident) || !Busy(PhaseOf(s, q), incident)
  }

  /** Pods whose turns overlap were busy with the incident at once. */
  lemma OverlapMeets(
    cfg: Config, run: seq<State>, actions: seq<Action>, k: nat, n: nat, incident: string) returns (j: nat)
    requires IsRun(cfg, run, actions) && k < n < |actions|
    requires ActsOn(cfg, run[k], actions[k], incident) && ActsOn(cfg, run[n], actions[n], incident)
    requires Overlap(run, actions, k, n, incident)
    ensures j <= n && !Apart(run[j], incident)
  {
    var p, q := actions[n].pod, actions[k].pod;
    NowUnmarked(cfg, run[k], actions[k], incident);
    forall m: nat | k < m < n ensures LooksBeside(run[m], run[m + 1], p, q, incident) {
      JustLooked(cfg, run[m], actions[m], p, q, incident);
    }
    j := FirstLooked(run, k, n, p, q, incident);
    TwoBusy(run[j], p, q, incident);
  }

  /** If one pod has just looked, the other one has still to mark. */
  predicate LooksBeside(s: State, t: State, p: string, q: string, incident: string) {
    !HasLooked(PhaseOf(s, p), incident) && HasLooked(PhaseOf(t, p), incident) && Unmarked(PhaseOf(s, q), incident) ==>
      Unmarked(PhaseOf(t, q), incident)
  }

  lemma {:induction false} FirstLooked(run: seq<State>, k: nat, m: nat, p: string, q: string, incident: string)
    returns (j: nat)
    requires k < m < |run| && HasLooked(PhaseOf(run[m], p), incident) && Unmarked(PhaseOf(run[k + 1], q), incident)
    requires forall l | k < l <= m :: Unmarked(PhaseOf(run[l], q), incident) || HasLooked(PhaseOf(run[l], p), incident)
    requires forall l: nat | k < l < m :: LooksBeside(run[l], run[l + 1], p, q, incident)
    ensures j <= m && HasLooked(PhaseOf(run[j], p), incident) && Unmarked(PhaseOf(run[j], q), incident)
  {
    if m == k + 1 {
      j := m;
    } else if HasLooked(PhaseOf(run[m - 1], p), incident) {
      j := FirstLooked(run, k, m - 1, p, q, incident);
    } else {
      j := m;
      assert LooksBeside(run[m - 1], run[m - 1 + 1], p, q, incident);
    }
  }

  lemma NowUnmarked(cfg: Config, s: State, a: Action, incident: string)
    requires Enabled(s, a) && ActsOn(cfg, s, a, incident)
    ensures Unmarked(PhaseOf(Step(cfg, s, a), a.pod), incident)
  {
  }

  lemma JustLooked(cfg: Config, s: State, a: Action, p: string, q: string, incident: string)
    requires Enabled(s, a)
    ensures LooksBeside(s, Step(cfg, s, a), p, q, incident)
  {
  }

  lemma TwoBusy(s: State, p: string, q: string, incident: string)
    requires HasLooked(PhaseOf(s, p), incident) && Unmarked(PhaseOf(s, q), incident)
    ensures !Apart(s, incident)
  {
    assert p != q && Busy(PhaseOf(s, p), incident) && Busy(PhaseOf(s, q), incident);
  }

  /** Two actions on one incident are at least its deduplication time apart when no two pods
      are between look and mark of it at once; whatever else overlaps. */
  lemma ActionsAreSpaced(cfg: Config, run: seq<State>, actions: seq<Action>, i: nat, incident: string)
    requires IsRun(cfg, run, actions) && i < |run|
    requires forall m | 0 <= m < i :: Apart(run[m], incident)
    ensures Spaced(run[i].log, Acted, Acted, incident, cfg.ttl(incident))
  {
    SpacedExactly(cfg, run, actions, i, incident);
    if RepeatsInOverlap(cfg, run, actions, i, incident) {
      var k: nat, n: nat :| k < n < i
        && ActsOn(cfg, run[k], actions[k], incident) && ActsOn(cfg, run[n], actions[n], incident)
        && Overlap(run, actions, k, n, incident) && actions[n].now - actions[k].now < cfg.ttl(incident);
      var j := OverlapMeets(cfg, run, actions, k, n, incident);
    }
  }

  /** In any run that has come to where two pods have looked at one incident, both can act on it
      at once. */
  lemma TwoLooksRepeat(cfg: Config, run: seq<State>, actions: seq<Action>, p: string, q: string, incident: string)
    returns (run': seq<State>, actions': seq<Action>)
    requires IsRun(cfg, run, actions) && p != q && cfg.ttl(incident) > 0
    requires HasLooked(PhaseOf(run[|actions|], p), incident) && HasLooked(PhaseOf(run[|actions|], q), incident)
    ensures IsRun(cfg, run', actions') && run <= run' && |actions'| == |actions| + 2
    ensures !Spaced(run'[|actions'|].log, Acted, Acted, incident, cfg.ttl(incident))
  {
    var e := Event(Acted, run[|actions|].clock, incident);
    run', actions' := OneActs(cfg, run, actions, p, incident);
    var log1 := run'[|actions'|].log;
    assert PhaseOf(run'[|actions'|], q) == PhaseOf(run[|actions|], q);
    run', actions' := OneActs(cfg, run', actions', q, incident);
    TwoAtOnce(log1, run'[|actions'|].log, e, cfg.ttl(incident));
  }

  lemma TwoAtOnce(before: seq<Event>, after: seq<Event>, e: Event, ttl: Time)
    requires e.kind == Acted && ttl > 0 && before != [] && before[|before| - 1] == e
    requires before < after && after[|after| - 1] == e
    ensures !Spaced(after, Acted, Acted, e.key, ttl)
  {
    assert after[|before| - 1] == e;
  }

  lemma OneActs(cfg: Config, run: seq<State>, actions: seq<Action>, pod: string, incident: string)
    returns (run': seq<State>, actions': seq<Action>)
    requires IsRun(cfg, run, actions) && HasLooked(PhaseOf(run[|actions|], pod), incident)
    ensures IsRun(cfg, run', actions') && run <= run' && |actions'| == |actions| + 1
    ensures var s, t := run[|actions|], run'[|actions'|];
      && t.clock == s.clock && s.log < t.log && t.log[|t.log| - 1] == Event(Acted, s.clock, incident)
      && forall other | other != pod :: PhaseOf(t, other) == PhaseOf(s, other)
  {
    var s := run[|actions|];
    if PhaseOf(s, pod).Looked? {
      run', actions' := OneMoreStep(cfg, run, actions, Act(pod, NoAction, s.clock));
    } else {
      run', actions' := OneMoreStep(cfg, run, actions, CarryOut(pod, s.clock));
    }
  }
}
