/** Whole runs of the autonomous loop: several pods, each in some part of a turn, and the
    verification jobs of their schedulers, all over one shared store. Every part is a step of
    its own that any pod may take at any time, so turns, verifications and the other writers
    of the store interleave freely. */
module SreRuns {
  import opened Text
  import opened KeyStore
  import Detector
  import opened SreLoop
  import Dedup

  // ---------- The machine ----------

  /** Where a pod stands in the handling of one anomaly. */
  datatype Phase =
    | Idle
    | Looked(n: TurnKeys)                                  // no duplicate; diagnosing and deciding
    | Cleared(n: TurnKeys, ok: bool, fixable: bool)        // the limiter was read and allows a restart
    | Tried(n: TurnKeys, done: bool, fixable: bool)        // the restart was tried
    | Refused(n: TurnKeys)                                 // the limiter was read and allows none
    | Recorded(n: TurnKeys, done: bool, fixable: bool)     // it was counted, or another action was taken
    | Marked(n: TurnKeys, fixable: bool)                   // the incident is marked; the restart was carried out
    | Handed(n: TurnKeys)                                  // the handoff was tried

  datatype Pod = Pod(phase: Phase, dispatched: set<string>, jobs: map<string, Job>)

  datatype State = State(clock: Time, keys: Keys, pods: map<string, Pod>, log: seq<Event>)

  datatype Action =
    | NewPass(pod: string, now: Time)
    | Look(pod: string, anomaly: Detector.Anomaly, now: Time)
    | Act(pod: string, choice: Choice, now: Time)     // read the limiter, or act otherwise
    | CarryOut(pod: string, now: Time)                // restart
    | Record(pod: string, now: Time)
    | Mark(pod: string, now: Time)
    | Hand(pod: string, now: Time)
    | Schedule(pod: string, now: Time)
    | Abort(pod: string, now: Time)       // the pass ends with an exception
    | RunJob(pod: string, incident: string, now: Time, healthy: bool, recent: bool, rollbackOk: bool)
    | SavePr(incident: string, now: Time, ttl: Time)
    | DeletePr(incident: string, now: Time)

  function PodOf(s: State, pod: string): Pod {
    if pod in s.pods then s.pods[pod] else Pod(Idle, {}, map[])
  }

  function PhaseOf(s: State, pod: string): Phase {
    PodOf(s, pod).phase
  }

  function JobsOf(s: State, pod: string): map<string, Job> {
    PodOf(s, pod).jobs
  }

  predicate Enabled(s: State, a: Action) {
    && s.clock <= a.now
    && match a
       case NewPass(p, _) => PhaseOf(s, p).Idle?
       case Look(p, _, _) => PhaseOf(s, p).Idle?
       case Act(p, _, _) => PhaseOf(s, p).Looked?
       case CarryOut(p, _) => PhaseOf(s, p).Cleared?
       case Record(p, _) => PhaseOf(s, p).Tried? || PhaseOf(s, p).Refused?
       case Mark(p, _) => PhaseOf(s, p).Recorded?
       case Hand(p, _) => PhaseOf(s, p).Marked?
       case Schedule(p, _) => PhaseOf(s, p).Handed?
       case Abort(p, _) => PhaseOf(s, p).Looked? || PhaseOf(s, p).Marked? || PhaseOf(s, p).Handed?
       case RunJob(p, incident, now, _, _, _) => incident in JobsOf(s, p) && JobsOf(s, p)[incident].due <= now
       case _ => true
  }

  /** The handoff is tried: not yet dispatched in this pass, and the issue has a fix. */
  predicate Tries(pod: Pod) {
    pod.phase.Marked? && pod.phase.fixable && pod.phase.n.verified !in pod.dispatched
  }

  function PodAfter(cfg: Config, s: State, a: Action, pod: Pod): Pod
    requires Enabled(s, a) && !a.SavePr? && !a.DeletePr? && pod == PodOf(s, a.pod)
  {
    match a
    case NewPass(_, _) => pod.(dispatched := {})
    case Look(_, anomaly, now) =>
      var n := KeysOf(cfg, anomaly);
      if Dedup.InStore(s.keys.incidents, n.incident, now) then pod else pod.(phase := Looked(n))
    case Act(_, choice, now) =>
      var n := pod.phase.n;
      pod.(phase :=
        if !choice.Restart? then Recorded(n, false, false)
        else if LimitReached(cfg, s.keys, n.checked, now) then Refused(n)
        else Cleared(n, choice.ok, choice.fixable))
    case CarryOut(_, _) => pod.(phase := Tried(pod.phase.n, pod.phase.ok, pod.phase.fixable))
    case Record(_, _) =>
      pod.(phase :=
        if pod.phase.Tried? then Recorded(pod.phase.n, pod.phase.done, pod.phase.fixable)
        else Recorded(pod.phase.n, false, false))
    case Mark(_, _) => pod.(phase := if pod.phase.done then Marked(pod.phase.n, pod.phase.fixable) else Idle)
    case Hand(_, _) => pod.(phase := Handed(pod.phase.n), dispatched := pod.dispatched + {pod.phase.n.verified})
    case Schedule(_, now) =>
      pod.(phase := Idle, jobs := pod.jobs[pod.phase.n.incident := Job(now + cfg.delay, pod.phase.n.verified)])
    case Abort(_, _) => pod.(phase := Idle)
    case RunJob(_, incident, now, healthy, recent, ok) =>
      pod.(jobs := Verify(cfg, s.keys, pod.jobs, incident, now, healthy, recent, ok).0)
  }

  function KeysAfter(cfg: Config, s: State, a: Action): Keys
    requires Enabled(s, a)
  {
    match a
    case Record(p, now) => RecordRestart(cfg, s.keys, PhaseOf(s, p).n.recorded, now)
    case Mark(p, now) => MarkIncident(cfg, s.keys, PhaseOf(s, p).n.incident, now)
    case Hand(p, now) => if Tries(PodOf(s, p)) then TakeHandoff(s.keys, PhaseOf(s, p).n.taken, now) else s.keys
    case SavePr(incident, now, ttl) => s.keys.(prs := s.keys.prs[incident := Expire(Entry((), None), now, ttl)])
    case DeletePr(incident, _) => s.keys.(prs := s.keys.prs - {incident})
    case _ => s.keys
  }

  function EventsOf(cfg: Config, s: State, a: Action): seq<Event>
    requires Enabled(s, a)
  {
    match a
    case Act(p, choice, now) =>
      var n := PhaseOf(s, p).n;
      if choice.Restart? && !LimitReached(cfg, s.keys, n.checked, now) then [] else [Event(Acted, now, n.incident)]
    case CarryOut(p, now) =>
      var n := PhaseOf(s, p).n;
      [Event(Restarted, now, n.checked), Event(Acted, now, n.incident)]
    case Hand(p, now) =>
      var n := PhaseOf(s, p).n;
      if Tries(PodOf(s, p)) && !Live(Get(s.keys.handoffs, n.taken), now) then [Event(HandedOff, now, n.taken)] else []
    case RunJob(p, incident, now, healthy, recent, ok) =>
      Verify(cfg, s.keys, JobsOf(s, p), incident, now, healthy, recent, ok).1
    case _ => []
  }

  function Step(cfg: Config, s: State, a: Action): State
    requires Enabled(s, a)
  {
    State(
      a.now, KeysAfter(cfg, s, a),
      if a.SavePr? || a.DeletePr? then s.pods else s.pods[a.pod := PodAfter(cfg, s, a, PodOf(s, a.pod))],
      s.log + EventsOf(cfg, s, a))
  }

  predicate Initial(s: State) {
    s.keys == Keys(map[], map[], map[], map[]) && s.pods == map[] && s.log == []
  }

  ghost predicate IsRun(cfg: Config, run: seq<State>, actions: seq<Action>) {
    && |run| == |actions| + 1
    && Initial(run[0])
    && forall i | 0 <= i < |actions| :: Enabled(run[i], actions[i]) && run[i + 1] == Step(cfg, run[i], actions[i])
  }

  // ---------- A turn on its own ----------

  /** What a pod and the store show of a pass. */
  function View(s: State, pod: string): Pass {
    Pass(s.keys, JobsOf(s, pod), PodOf(s, pod).dispatched, s.log)
  }

  /** The parts of one turn in their order... */
  function Turn(cfg: Config, s: State, pod: string, a: Detector.Anomaly, choice: Choice, now: Time, end: Time): State
    requires PhaseOf(s, pod).Idle? && s.clock <= now <= end
  {
    var s1 := Step(cfg, s, Look(pod, a, now));
    if PhaseOf(s1, pod).Idle? then s1 else AfterAct(cfg, AfterLook(cfg, s1, pod, choice, now), pod, end)
  }

  /** ...from the look to the action... */
  function AfterLook(cfg: Config, s: State, pod: string, choice: Choice, now: Time): State
    requires PhaseOf(s, pod).Looked? && s.clock <= now
  {
    var s1 := Step(cfg, s, Act(pod, choice, now));
    if PhaseOf(s1, pod).Cleared? then Step(cfg, s1, CarryOut(pod, now)) else s1
  }

  predicate HasActed(phase: Phase) {
    phase.Tried? || phase.Refused? || phase.Recorded?
  }

  /** ...from the action on... */
  function AfterAct(cfg: Config, s: State, pod: string, end: Time): State
    requires HasActed(PhaseOf(s, pod)) && s.clock <= end
  {
    var s1 := if PhaseOf(s, pod).Recorded? then s else Step(cfg, s, Record(pod, end));
    var s2 := Step(cfg, s1, Mark(pod, end));
    if PhaseOf(s2, pod).Idle? then s2 else AfterMark(cfg, s2, pod, end)
  }

  /** ...and from the mark on. */
  function AfterMark(cfg: Config, s: State, pod: string, end: Time): State
    requires PhaseOf(s, pod).Marked? && s.clock <= end
  {
    Step(cfg, Step(cfg, s, Hand(pod, end)), Schedule(pod, end))
  }

  lemma AfterMarkIs(cfg: Config, s: State, pod: string, end: Time)
    requires PhaseOf(s, pod).Marked? && s.clock <= end
    ensures View(AfterMark(cfg, s, pod, end), pod)
         == HandOver(cfg, View(s, pod), PhaseOf(s, pod).n, PhaseOf(s, pod).fixable, end)
  {
  }

  predicate RestartDone(phase: Phase) {
    (phase.Tried? || phase.Recorded?) && phase.done
  }

  lemma AfterActIs(cfg: Config, s: State, pod: string, end: Time)
    requires HasActed(PhaseOf(s, pod)) && s.clock <= end
    ensures var phase := PhaseOf(s, pod);
      var keys := if phase.Recorded? then s.keys else RecordRestart(cfg, s.keys, phase.n.recorded, end);
      var marked := View(s, pod).(keys := MarkIncident(cfg, keys, phase.n.incident, end));
      View(AfterAct(cfg, s, pod, end), pod)
        == if RestartDone(phase) then HandOver(cfg, marked, phase.n, phase.fixable, end) else marked
  {
    if PhaseOf(s, pod).Recorded? {
      AfterRecordIs(cfg, s, pod, end);
    } else {
      RecordIs(cfg, s, pod, end);
      AfterRecordIs(cfg, Step(cfg, s, Record(pod, end)), pod, end);
    }
  }

  lemma RecordIs(cfg: Config, s: State, pod: string, end: Time)
    requires (PhaseOf(s, pod).Tried? || PhaseOf(s, pod).Refused?) && s.clock <= end
    ensures var t, phase := Step(cfg, s, Record(pod, end)), PhaseOf(s, pod);
      && View(t, pod) == View(s, pod).(keys := RecordRestart(cfg, s.keys, phase.n.recorded, end)) && t.clock == end
      && PhaseOf(t, pod).Recorded? && PhaseOf(t, pod).n == phase.n
      && RestartDone(PhaseOf(t, pod)) == RestartDone(phase)
      && (RestartDone(phase) ==> PhaseOf(t, pod).fixable == phase.fixable)
  {
  }

  lemma AfterRecordIs(cfg: Config, s: State, pod: string, end: Time)
    requires PhaseOf(s, pod).Recorded? && s.clock <= end
    ensures var phase := PhaseOf(s, pod);
      var marked := View(s, pod).(keys := MarkIncident(cfg, s.keys, phase.n.incident, end));
      View(AfterAct(cfg, s, pod, end), pod)
        == if RestartDone(phase) then HandOver(cfg, marked, phase.n, phase.fixable, end) else marked
  {
    var t := Step(cfg, s, Mark(pod, end));
    if PhaseOf(t, pod).Marked? {
      AfterMarkIs(cfg, t, pod, end);
    }
  }

  /** Without interference the parts add up to the turn of the loop. */
  lemma TurnIsProcess(cfg: Config, s: State, pod: string, a: Detector.Anomaly, choice: Choice, now: Time, end: Time)
    requires PhaseOf(s, pod).Idle? && s.clock <= now <= end
    ensures View(Turn(cfg, s, pod, a, choice, now, end), pod)
         == Process(cfg, View(s, pod), KeysOf(cfg, a), choice, now, end)
  {
    var s1 := Step(cfg, s, Look(pod, a, now));
    LookIs(cfg, s, pod, a, now);
    if !PhaseOf(s1, pod).Idle? {
      LookedIsProcess(cfg, s1, pod, KeysOf(cfg, a), choice, now, end);
    }
  }

  lemma LookIs(cfg: Config, s: State, pod: string, a: Detector.Anomaly, now: Time)
    requires PhaseOf(s, pod).Idle? && s.clock <= now
    ensures var t, n := Step(cfg, s, Look(pod, a, now)), KeysOf(cfg, a);
      && View(t, pod) == View(s, pod) && t.clock == now
      && PhaseOf(t, pod) == (if Dedup.InStore(s.keys.incidents, n.incident, now) then Idle else Looked(n))
  {
  }

  lemma LookedIsProcess(cfg: Config, s: State, pod: string, n: TurnKeys, choice: Choice, now: Time, end: Time)
    requires PhaseOf(s, pod) == Looked(n) && s.clock <= now <= end
    requires !Dedup.InStore(s.keys.incidents, n.incident, now)
    ensures View(AfterAct(cfg, AfterLook(cfg, s, pod, choice, now), pod, end), pod)
         == Process(cfg, View(s, pod), n, choice, now, end)
  {
    AfterLookIs(cfg, s, pod, choice, now);
    AfterActIs(cfg, AfterLook(cfg, s, pod, choice, now), pod, end);
  }

  lemma AfterLookIs(cfg: Config, s: State, pod: string, choice: Choice, now: Time)
    requires PhaseOf(s, pod).Looked? && s.clock <= now
    ensures var t, n := AfterLook(cfg, s, pod, choice, now), PhaseOf(s, pod).n;
      var limited := LimitReached(cfg, s.keys, n.checked, now);
      var restart := if choice.Restart? && !limited then [Event(Restarted, now, n.checked)] else [];
      && t.clock == now && HasActed(PhaseOf(t, pod)) && PhaseOf(t, pod).n == n
      && View(t, pod) == View(s, pod).(log := s.log + (restart + [Event(Acted, now, n.incident)]))
      && PhaseOf(t, pod)
         == (if !choice.Restart? then Recorded(n, false, false)
             else if limited then Refused(n) else Tried(n, choice.ok, choice.fixable))
  {
  }

  /** Every phase was entered with the keys of an anomaly, whose readings agree. */
  ghost predicate Keyed(s: State) {
    forall p :: PhaseOf(s, p).Idle? || Agreeing(PhaseOf(s, p).n)
  }

  lemma KeyedKept(cfg: Config, s: State, a: Action)
    requires Keyed(s) && Enabled(s, a)
    ensures Keyed(Step(cfg, s, a))
  {
    if a.Look? {
      KeysAgree(cfg, a.anomaly);
    }
    forall p ensures PhaseOf(Step(cfg, s, a), p).Idle? || Agreeing(PhaseOf(Step(cfg, s, a), p).n) {
      assert PhaseOf(s, p).Idle? || Agreeing(PhaseOf(s, p).n);
    }
  }

  lemma {:induction false} RunKeyed(cfg: Config, run: seq<State>, actions: seq<Action>, i: nat)
    requires IsRun(cfg, run, actions) && i < |run|
    ensures Keyed(run[i])
  {
    if i > 0 {
      RunKeyed(cfg, run, actions, i - 1);
      KeyedKept(cfg, run[i - 1], actions[i - 1]);
    }
  }

  /** A run goes on with any step that is enabled. */
  lemma OneMoreStep(cfg: Config, run: seq<State>, actions: seq<Action>, a: Action)
    returns (run': seq<State>, actions': seq<Action>)
    requires IsRun(cfg, run, actions) && Enabled(run[|actions|], a)
    ensures IsRun(cfg, run', actions') && run <= run' && actions' == actions + [a]
    ensures run'[|actions'|] == Step(cfg, run[|actions|], a)
  {
    run', actions' := run + [Step(cfg, run[|actions|], a)], actions + [a];
  }

  /** What may happen at any time: an idle pod starts a pass, with nothing dispatched, or looks at
      an anomaly; the flow of pull requests saves and deletes its keys; due jobs run. */
  lemma AtAnyTime(cfg: Config, s: State, pod: string, incident: string, a: Detector.Anomaly, now: Time, ttl: Time)
    requires s.clock <= now
    ensures PhaseOf(s, pod).Idle? ==> Enabled(s, NewPass(pod, now)) && Enabled(s, Look(pod, a, now))
    ensures PhaseOf(s, pod).Idle? ==>
      PodOf(Step(cfg, s, NewPass(pod, now)), pod) == PodOf(s, pod).(dispatched := {})
    ensures Enabled(s, SavePr(incident, now, ttl)) && Enabled(s, DeletePr(incident, now))
    ensures forall t :: Live(Get(Step(cfg, s, SavePr(incident, now, ttl)).keys.prs, incident), t) <==> t < now + ttl
    ensures incident !in Step(cfg, s, DeletePr(incident, now)).keys.prs
    ensures PhaseOf(s, pod).Looked? || PhaseOf(s, pod).Marked? || PhaseOf(s, pod).Handed? ==>
      && Enabled(s, Abort(pod, now))
      && var t := Step(cfg, s, Abort(pod, now));
         PhaseOf(t, pod).Idle? && t.keys == s.keys && t.log == s.log && JobsOf(t, pod) == JobsOf(s, pod)
    ensures forall h, r, o :: incident in JobsOf(s, pod) && JobsOf(s, pod)[incident].due <= now ==>
      Enabled(s, RunJob(pod, incident, now, h, r, o))
  {
  }

  // ---------- Spacing of guarded effects ----------

  /** Every effect of this kind on this key is covered by the key's present lifetime or an
      expired one. */
  ghost predicate Guarded(log: seq<Event>, slot: Slot<()>, kind: Kind, key: string, ttl: Time, clock: Time) {
    forall e | e in log && Is(e, kind, key) ::
      e.time <= clock && slot.Some? && slot.value.expiry.Some? && e.time + ttl <= slot.value.expiry.value
  }

  ghost predicate Spaced(log: seq<Event>, first: Kind, second: Kind, key: string, ttl: Time) {
    forall i, j | 0 <= i < j < |log| && Is(log[i], first, key) && Is(log[j], second, key) ::
      log[j].time - log[i].time >= ttl
  }

  /** New effects keep the spacing when at most one of them is of the second kind, none
      before it is of the first, and the guarding key was not live at its time. */
  lemma SpacedAppend(
    log: seq<Event>, events: seq<Event>, slot: Slot<()>, first: Kind, second: Kind, key: string, ttl: Time, clock: Time)
    requires Spaced(log, first, second, key, ttl) && Guarded(log, slot, first, key, ttl, clock)
    requires forall e | e in events && Is(e, second, key) :: !Live(slot, e.time)
    requires forall i, j | 0 <= i < j < |events| :: !(Is(events[i], first, key) && Is(events[j], second, key))
    ensures Spaced(log + events, first, second, key, ttl)
  {
    var all := log + events;
    forall i, j | 0 <= i < j < |all| && Is(all[i], first, key) && Is(all[j], second, key)
      ensures all[j].time - all[i].time >= ttl
    {
      if i < |log| <= j {
        assert all[i] in log && all[j] in events;
      }
    }
  }

  /** A slot is either left alone or guards from now on. */
  predicate Renewed(before: Slot<()>, after: Slot<()>, ttl: Time, clock: Time) {
    after == before
    || (after.Some? && after.value.expiry.Some? && clock + ttl <= after.value.expiry.value)
  }

  /** Effects of a kind on a key come one at a time, while the slot is not live, and leave
      it guarding. */
  predicate Guarding(events: seq<Event>, kind: Kind, key: string, before: Slot<()>, after: Slot<()>, ttl: Time) {
    && (forall i, j | 0 <= i < j < |events| :: !(Is(events[i], kind, key) && Is(events[j], kind, key)))
    && (forall e | e in events && Is(e, kind, key) ::
         && !Live(before, e.time)
         && after.Some? && after.value.expiry.Some? && e.time + ttl <= after.value.expiry.value)
  }

  lemma GuardedAppend(
    log: seq<Event>, events: seq<Event>, before: Slot<()>, after: Slot<()>, kind: Kind, key: string, ttl: Time,
    clock: Time, clock': Time)
    requires Guarded(log, before, kind, key, ttl, clock) && Renewed(before, after, ttl, clock)
    requires Guarding(events, kind, key, before, after, ttl) && clock <= clock'
    requires forall e | e in events :: e.time <= clock'
    ensures Guarded(log + events, after, kind, key, ttl, clock')
  {
    forall e | e in log + events && Is(e, kind, key)
      ensures e.time <= clock' && after.Some? && after.value.expiry.Some? && e.time + ttl <= after.value.expiry.value
    {
      assert e in log || e in events;
    }
  }

  // ---------- Main results: the handoff ----------

  ghost predicate HandoffInv(s: State, key: string) {
    && Guarded(s.log, Get(s.keys.handoffs, key), HandedOff, key, HANDOFF_TTL, s.clock)
    && Spaced(s.log, HandedOff, HandedOff, key, HANDOFF_TTL)
    && Spaced(s.log, HandedOff, RolledBack, key, HANDOFF_TTL)
  }

  /** What a step does to the handoffs of one key and to their log. */
  ghost predicate HandoffEffect(
    events: seq<Event>, key: string, before: Slot<()>, after: Slot<()>, clock: Time, now: Time)
  {
    && clock <= now && Renewed(before, after, HANDOFF_TTL, clock)
    && Guarding(events, HandedOff, key, before, after, HANDOFF_TTL)
    && (forall e | e in events :: e.time <= now)
    && (forall e | e in events && Is(e, RolledBack, key) :: !Live(before, e.time))
    && (forall i, j | 0 <= i < j < |events| :: !(Is(events[i], HandedOff, key) && Is(events[j], RolledBack, key)))
  }

  lemma StepHandoff(cfg: Config, s: State, a: Action, key: string)
    requires Enabled(s, a)
    ensures HandoffEffect(
      EventsOf(cfg, s, a), key, Get(s.keys.handoffs, key), Get(KeysAfter(cfg, s, a).handoffs, key), s.clock, a.now)
  {
  }

  lemma HandoffInvKept(cfg: Config, s: State, a: Action, key: string)
    requires Enabled(s, a) && HandoffInv(s, key)
    ensures HandoffInv(Step(cfg, s, a), key)
  {
    var events := EventsOf(cfg, s, a);
    var before, after := Get(s.keys.handoffs, key), Get(KeysAfter(cfg, s, a).handoffs, key);
    StepHandoff(cfg, s, a, key);
    SpacedAppend(s.log, events, before, HandedOff, HandedOff, key, HANDOFF_TTL, s.clock);
    SpacedAppend(s.log, events, before, HandedOff, RolledBack, key, HANDOFF_TTL, s.clock);
    GuardedAppend(s.log, events, before, after, HandedOff, key, HANDOFF_TTL, s.clock, a.now);
  }

  lemma {:induction false} RunHandoffs(cfg: Config, run: seq<State>, actions: seq<Action>, i: nat, key: string)
    requires IsRun(cfg, run, actions) && i < |run|
    ensures HandoffInv(run[i], key)
  {
    if i > 0 {
      RunHandoffs(cfg, run, actions, i - 1, key);
      HandoffInvKept(cfg, run[i - 1], actions[i - 1], key);
    }
  }

  /** Whatever the pods, their turns and their verifications overlap: two handoffs of the same
      namespace and base deployment are at least 7200 s apart, and no verification rolls that
      deployment back in the 7200 s after a handoff. */
  lemma HandoffsAreSafe(cfg: Config, run: seq<State>, actions: seq<Action>, n: nat, i: nat, j: nat)
    requires IsRun(cfg, run, actions) && n < |run| && i < j < |run[n].log|
    requires run[n].log[i].kind == HandedOff && run[n].log[j].key == run[n].log[i].key
    requires run[n].log[j].kind == HandedOff || run[n].log[j].kind == RolledBack
    ensures run[n].log[j].time - run[n].log[i].time >= HANDOFF_TTL
  {
    RunHandoffs(cfg, run, actions, n, run[n].log[i].key);
  }

  // ---------- Main results: verdicts ----------

  /** The verification that wrote the last effect of action `k`. */
  ghost predicate WrittenBy(cfg: Config, run: seq<State>, actions: seq<Action>, k: nat, e: Event)
    requires k < |actions| < |run|
  {
    var s, a := run[k], actions[k];
    && a.RunJob? && a.incident == e.key && a.now == e.time
    && a.incident in JobsOf(s, a.pod) && JobsOf(s, a.pod)[a.incident].due <= a.now
    && var waits := !a.healthy && PendingFix(s.keys, a.incident, JobsOf(s, a.pod)[a.incident].key, a.now);
       VerdictIs(e.kind, a.healthy, waits, a.recent, a.rollbackOk)
  }

  /** A verification in a run does what `Verify` says, and touches no key. */
  lemma VerificationRuns(cfg: Config, s: State, a: Action)
    requires a.RunJob? && Enabled(s, a)
    ensures var t, (after, events) := Step(cfg, s, a),
        Verify(cfg, s.keys, JobsOf(s, a.pod), a.incident, a.now, a.healthy, a.recent, a.rollbackOk);
      && t.log == s.log + events && JobsOf(t, a.pod) == after && t.keys == s.keys
      && PhaseOf(t, a.pod) == PhaseOf(s, a.pod)
  {
  }

  /** In every run each verdict was written by a verification of its incident that was due and
      that found what the verdict says. */
  lemma {:induction false} VerdictsAreTrue(cfg: Config, run: seq<State>, actions: seq<Action>, n: nat, e: Event)
    requires IsRun(cfg, run, actions) && n < |run| && e in run[n].log && e.kind.Decided?
    ensures exists k: nat :: k < n && WrittenBy(cfg, run, actions, k, e)
  {
    var s, a := run[n - 1], actions[n - 1];
    assert run[n].log == s.log + EventsOf(cfg, s, a);
    if e in s.log {
      VerdictsAreTrue(cfg, run, actions, n - 1, e);
    } else {
      VerdictStep(cfg, s, a, e);
      assert WrittenBy(cfg, run, actions, n - 1, e);
    }
  }

  lemma VerdictStep(cfg: Config, s: State, a: Action, e: Event)
    requires Enabled(s, a) && e in EventsOf(cfg, s, a) && e.kind.Decided?
    ensures a.RunJob? && a.incident == e.key && a.now == e.time
    ensures var waits := !a.healthy && PendingFix(s.keys, a.incident, JobsOf(s, a.pod)[a.incident].key, a.now);
      VerdictIs(e.kind, a.healthy, waits, a.recent, a.rollbackOk)
  {
    if a.RunJob? {
      JobRunsOnce(cfg, s.keys, JobsOf(s, a.pod), a.incident, a.now, a.healthy, a.recent, a.rollbackOk);
    }
  }

  // ---------- Main results: verification chains ----------

  predicate RunsJob(a: Action, pod: string, incident: string) {
    a.RunJob? && a.pod == pod && a.incident == incident
  }

  /** How often the job runs from action `i` on. */
  function JobRuns(actions: seq<Action>, pod: string, incident: string, i: nat): nat
    requires i <= |actions|
    decreases |actions| - i
  {
    if i == |actions| then 0
    else (if RunsJob(actions[i], pod, incident) then 1 else 0) + JobRuns(actions, pod, incident, i + 1)
  }

  predicate Schedules(s: State, a: Action, pod: string, incident: string) {
    a.Schedule? && a.pod == pod && PhaseOf(s, pod).Handed? && PhaseOf(s, pod).n.incident == incident
  }

  /** The step starts nothing new for the job: no handoff takes its key, no pull request is
      saved for its incident, and the pod schedules no other verification of it. */
  predicate Quiet(s: State, a: Action, pod: string, incident: string, key: string) {
    && !(a.Hand? && Tries(PodOf(s, a.pod)) && PhaseOf(s, a.pod).n.taken == key
         && !Live(Get(s.keys.handoffs, key), a.now))
    && !Schedules(s, a, pod, incident)
    && !(a.SavePr? && a.incident == incident)
  }

  ghost predicate QuietFrom(run: seq<State>, actions: seq<Action>, pod: string, incident: string, key: string, i: nat)
    requires |run| == |actions| + 1
  {
    forall k | i <= k < |actions| :: Quiet(run[k], actions[k], pod, incident, key)
  }

  /** The keys that make the job wait are gone at the deadline. */
  ghost predicate ExpireBy(k: Keys, incident: string, key: string, deadline: Time) {
    forall t :: deadline <= t ==> !PendingFix(k, incident, key, t)
  }

  /** A quiet step of anybody leaves the job and its deadline as they are, unless it runs it. */
  lemma QuietStep(cfg: Config, s: State, a: Action, pod: string, incident: string, key: string, deadline: Time)
    requires Enabled(s, a) && Quiet(s, a, pod, incident, key) && ExpireBy(s.keys, incident, key, deadline)
    ensures ExpireBy(Step(cfg, s, a).keys, incident, key, deadline)
    ensures !RunsJob(a, pod, incident) ==>
      (incident in JobsOf(Step(cfg, s, a), pod) <==> incident in JobsOf(s, pod))
      && (incident in JobsOf(s, pod) ==> JobsOf(Step(cfg, s, a), pod)[incident] == JobsOf(s, pod)[incident])
  {
    forall t | deadline <= t ensures !PendingFix(Step(cfg, s, a).keys, incident, key, t) {
      assert !PendingFix(s.keys, incident, key, t);
    }
  }

  /** Without a job nothing is verified before the pod schedules the incident again. */
  lemma {:induction false} NoJobNoRuns(
    cfg: Config, run: seq<State>, actions: seq<Action>, pod: string, incident: string, i: nat)
    requires IsRun(cfg, run, actions) && i <= |actions|
    requires forall k | i <= k < |actions| :: !Schedules(run[k], actions[k], pod, incident)
    requires incident !in JobsOf(run[i], pod)
    ensures JobRuns(actions, pod, incident, i) == 0
    decreases |actions| - i
  {
    if i < |actions| {
      assert !Schedules(run[i], actions[i], pod, incident);
      assert incident !in JobsOf(run[i + 1], pod);
      NoJobNoRuns(cfg, run, actions, pod, incident, i + 1);
    }
  }

  /** `n` runs, a delay apart, fit into the time left. */
  predicate Fit(n: nat, delay: Time, left: Time) {
    n >= 2 ==> (n - 2) * delay < left
  }

  /** A run at `now`, at or after the due time, uses up one delay of the time left. */
  lemma OneMoreFits(n: nat, delay: Time, due: Time, now: Time, deadline: Time)
    requires delay > 0 && due <= now < deadline && Fit(n, delay, deadline - (now + delay))
    ensures Fit(n + 1, delay, deadline - due)
  {
    if n >= 2 {
      assert (n - 1) * delay == (n - 2) * delay + delay;
    }
  }

  lemma {:induction false} ChainsEndBy(
    cfg: Config, run: seq<State>, actions: seq<Action>, pod: string, incident: string, key: string, deadline: Time,
    i: nat)
    requires IsRun(cfg, run, actions) && i <= |actions| && cfg.delay > 0
    requires incident in JobsOf(run[i], pod) && JobsOf(run[i], pod)[incident].key == key
    requires QuietFrom(run, actions, pod, incident, key, i) && ExpireBy(run[i].keys, incident, key, deadline)
    ensures Fit(JobRuns(actions, pod, incident, i), cfg.delay, deadline - JobsOf(run[i], pod)[incident].due)
    decreases |actions| - i
  {
    if i < |actions| {
      var s, a, t := run[i], actions[i], run[i + 1];
      assert t == Step(cfg, s, a) && Quiet(s, a, pod, incident, key);
      QuietStep(cfg, s, a, pod, incident, key, deadline);
      if !RunsJob(a, pod, incident) {
        ChainsEndBy(cfg, run, actions, pod, incident, key, deadline, i + 1);
      } else {
        OneRun(cfg, s, a, pod, incident, deadline);
        if incident in JobsOf(t, pod) {
          ChainsEndBy(cfg, run, actions, pod, incident, key, deadline, i + 1);
          var n := JobRuns(actions, pod, incident, i + 1);
          OneMoreFits(n, cfg.delay, JobsOf(s, pod)[incident].due, a.now, deadline);
        } else {
          QuietSchedulesNothing(run, actions, pod, incident, key, i + 1);
          NoJobNoRuns(cfg, run, actions, pod, incident, i + 1);
        }
      }
    }
  }

  lemma QuietSchedulesNothing(
    run: seq<State>, actions: seq<Action>, pod: string, incident: string, key: string, i: nat)
    requires |run| == |actions| + 1 && QuietFrom(run, actions, pod, incident, key, i)
    ensures forall k | i <= k < |actions| :: !Schedules(run[k], actions[k], pod, incident)
  {
    forall k | i <= k < |actions| ensures !Schedules(run[k], actions[k], pod, incident) {
      assert Quiet(run[k], actions[k], pod, incident, key);
    }
  }

  /** A job that is scheduled again was run before the deadline, and is due a delay later. */
  lemma OneRun(cfg: Config, s: State, a: Action, pod: string, incident: string, deadline: Time)
    requires RunsJob(a, pod, incident) && Enabled(s, a)
    requires ExpireBy(s.keys, incident, JobsOf(s, pod)[incident].key, deadline)
    ensures var before, after := JobsOf(s, pod), JobsOf(Step(cfg, s, a), pod);
      incident in after ==>
        && a.now < deadline && before[incident].due <= a.now
        && after[incident] == Job(a.now + cfg.delay, before[incident].key)
  {
    JobRunsOnce(cfg, s.keys, JobsOf(s, pod), incident, a.now, a.healthy, a.recent, a.rollbackOk);
  }

  /** Handoffs and saved pull requests always carry an expiry. */
  ghost predicate AllExpire(k: Keys) {
    && (forall key | key in k.handoffs :: k.handoffs[key].expiry.Some?)
    && (forall key | key in k.prs :: k.prs[key].expiry.Some?)
  }

  lemma {:induction false} RunExpires(cfg: Config, run: seq<State>, actions: seq<Action>, i: nat)
    requires IsRun(cfg, run, actions) && i < |run|
    ensures AllExpire(run[i].keys)
  {
    if i > 0 {
      RunExpires(cfg, run, actions, i - 1);
    }
  }

  function Later(t: Time, slot: Slot<()>): Time {
    if slot.Some? && slot.value.expiry.Some? && slot.value.expiry.value > t then slot.value.expiry.value else t
  }

  /** When the last key that makes the job wait expires, or `t` when that is later. */
  function Deadline(k: Keys, incident: string, key: string, t: Time): Time {
    Later(Later(t, Get(k.prs, incident)), Get(k.handoffs, key))
  }

  /** In every reachable state the waiting of a job has a deadline. */
  lemma DeadlineExists(
    cfg: Config, run: seq<State>, actions: seq<Action>, i: nat, incident: string, key: string, t: Time)
    requires IsRun(cfg, run, actions) && i < |run|
    ensures ExpireBy(run[i].keys, incident, key, Deadline(run[i].keys, incident, key, t))
  {
    RunExpires(cfg, run, actions, i);
  }

  /** Verification chains end: from any point of any run, with no new handoff of its
      deployment, pull request or verification of its incident, a job runs at most
      (lifetime left of its keys / delay) times, rounded up, and once more, whatever else the
      pods do meanwhile. */
  lemma ChainsEnd(cfg: Config, run: seq<State>, actions: seq<Action>, pod: string, incident: string, i: nat)
    requires IsRun(cfg, run, actions) && i <= |actions| && cfg.delay > 0 && incident in JobsOf(run[i], pod)
    requires QuietFrom(run, actions, pod, incident, JobsOf(run[i], pod)[incident].key, i)
    ensures var n, job := JobRuns(actions, pod, incident, i), JobsOf(run[i], pod)[incident];
      n >= 2 ==> (n - 2) * cfg.delay < Deadline(run[i].keys, incident, job.key, job.due) - job.due
  {
    var job := JobsOf(run[i], pod)[incident];
    var deadline := Deadline(run[i].keys, incident, job.key, job.due);
    DeadlineExists(cfg, run, actions, i, incident, job.key, job.due);
    ChainsEndBy(cfg, run, actions, pod, incident, job.key, deadline, i);
  }
}
