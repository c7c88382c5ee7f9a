/** What the autonomous loop does with one anomaly, and what the verification job does
    later, over the keys of the shared store: incident deduplication, the restart limiter,
    the GitOps handoff and the self-rescheduling verification. */
module SreLoop {
  import opened Text
  import opened KeyStore
  import opened Names
  import Dedup
  import opened Detector

  const HANDOFF_TTL := 7200 * SECOND

  /** Settings: the restart limiter, the verification delay, the deduplication time of a key
      (`Dedup.Ttl` in the source) and the keys of the manifest map. */
  datatype Config = Config(maxRestarts: int, window: Time, delay: Time, ttl: string -> Time, appKeys: seq<string>)

  /** The keys `sre:incident:*`, `sre:restarts:*`, `sre:gitops:*` and `bb:pending_pr:*`. */
  datatype Keys = Keys(
    incidents: map<string, Entry<()>>, restarts: map<string, Entry<nat>>,
    handoffs: map<string, Entry<()>>, prs: map<string, Entry<()>>)

  /** A verification job, by incident; `key` names its namespace and deployment. */
  datatype Job = Job(due: Time, key: string)

  datatype Verdict = Healthy | RollbackOk | RollbackError | Unresolved

  datatype Kind = Acted | Restarted | HandedOff | RolledBack | Waiting | Decided(verdict: Verdict)

  /** An effect on the world, kept for the statements about whole runs. */
  datatype Event = Event(kind: Kind, time: Time, key: string)

  /** What `decide_action` chose, what the cluster answered to a restart, and whether the
      issue type has a GitOps fix for the resource. */
  datatype Choice = Restart(ok: bool, fixable: bool) | NotifyHuman | NoAction

  function Get<V>(m: map<string, Entry<V>>, key: string): Slot<V> {
    if key in m then Some(m[key]) else None
  }

  function Resource(a: Anomaly): string {
    if a.ownerName != "" then a.ownerName else a.resourceName
  }

  function InNamespace(a: Anomaly, name: string): string {
    a.namespace + ":" + name
  }

  // ---------- One anomaly ----------

  predicate LimitReached(cfg: Config, k: Keys, key: string, now: Time) {
    var slot := Get(k.restarts, key);
    (if Live(slot, now) then slot.value.value else 0) >= cfg.maxRestarts
  }

  function RecordRestart(cfg: Config, k: Keys, key: string, now: Time): Keys {
    k.(restarts := k.restarts[key := Expire(Incr(Get(k.restarts, key), now), now, cfg.window)])
  }

  function MarkIncident(cfg: Config, k: Keys, key: string, now: Time): Keys {
    k.(incidents := Dedup.MarkStore(k.incidents, key, now, cfg.ttl(key)))
  }

  /** `SET NX EX`: the key is taken only when it is free. */
  function TakeHandoff(k: Keys, key: string, now: Time): Keys {
    if Live(Get(k.handoffs, key), now) then k
    else k.(handoffs := k.handoffs[key := Expire(Entry((), None), now, HANDOFF_TTL)])
  }

  /** State of one pass: the store, the pod's jobs, the handoffs dispatched in this pass,
      and the effects so far. */
  datatype Pass = Pass(keys: Keys, jobs: map<string, Job>, dispatched: set<string>, log: seq<Event>)

  /** The keys that one anomaly is handled under: of the incident; of the restart counter, as
      the healer checks it and as the scheduler records it; and of the handoff, as the healer
      takes it and as the scheduler passes it to the verification. */
  datatype TurnKeys = TurnKeys(incident: string, checked: string, recorded: string, taken: string, verified: string)

  function KeysOf(cfg: Config, a: Anomaly): TurnKeys {
    TurnKeys(
      Key(a),
      InNamespace(a, RestartTarget(cfg.appKeys, Resource(a))),
      InNamespace(a, TargetFrom(cfg.appKeys, Resource(a), 0)),
      InNamespace(a, DeployBase(cfg.appKeys, Resource(a))),
      InNamespace(a, BaseFrom(cfg.appKeys, Resource(a), 0)))
  }

  predicate Agreeing(n: TurnKeys) {
    n.checked == n.recorded && n.taken == n.verified
  }

  /** The counter that is checked is the one that is recorded, and the key that a handoff
      takes is the one that the verification reads. */
  lemma KeysAgree(cfg: Config, a: Anomaly)
    ensures Agreeing(KeysOf(cfg, a))
  {
    assert cfg.appKeys[0..] == cfg.appKeys;
    ReadingsAgree(cfg.appKeys, Resource(a), 0);
  }

  /** The keys come from the owner of a pod where it is known, else from the resource itself, and
      from the namespace; the incident's own key from the resource and the issue. */
  lemma KeysFollowOwner(cfg: Config, a: Anomaly)
    ensures var n := KeysOf(cfg, a);
      && n.incident == a.namespace + ":" + a.resourceName + ":" + a.issueType
      && (a.ownerName != "" ==>
            && n.checked == a.namespace + ":" + RestartTarget(cfg.appKeys, a.ownerName)
            && n.taken == a.namespace + ":" + DeployBase(cfg.appKeys, a.ownerName))
      && (a.ownerName == "" ==>
            && n.checked == a.namespace + ":" + RestartTarget(cfg.appKeys, a.resourceName)
            && n.taken == a.namespace + ":" + DeployBase(cfg.appKeys, a.resourceName))
  {
  }

  /** Handing over and scheduling, as the loop does it. */
  function HandOver(cfg: Config, p: Pass, n: TurnKeys, fixable: bool, end: Time): Pass {
    var handoff := n.verified !in p.dispatched && fixable;
    Pass(
      if handoff then TakeHandoff(p.keys, n.taken, end) else p.keys,
      p.jobs[n.incident := Job(end + cfg.delay, n.verified)],
      p.dispatched + {n.verified},
      p.log + if handoff && !Live(Get(p.keys.handoffs, n.taken), end) then [Event(HandedOff, end, n.taken)] else [])
  }

  /** One turn of the loop. The checks and the restart happen at `now`, the entries of the
      store are written at `end`. */
  function Process(cfg: Config, p: Pass, n: TurnKeys, choice: Choice, now: Time, end: Time): Pass {
    if Dedup.InStore(p.keys.incidents, n.incident, now) then p
    else if !choice.Restart? then
      p.(keys := MarkIncident(cfg, p.keys, n.incident, end), log := p.log + [Event(Acted, now, n.incident)])
    else
      var limited := LimitReached(cfg, p.keys, n.checked, now);
      var restart := if limited then [] else [Event(Restarted, now, n.checked)];
      var log := p.log + (restart + [Event(Acted, now, n.incident)]);
      var keys := MarkIncident(cfg, RecordRestart(cfg, p.keys, n.recorded, end), n.incident, end);
      var marked := p.(keys := keys, log := log);
      if limited || !choice.ok then marked else HandOver(cfg, marked, n, choice.fixable, end)
  }

  /** An anomaly of a pass, with what is decided about it and when. */
  datatype Input = Input(anomaly: Anomaly, choice: Choice, now: Time, end: Time)

  /** The whole loop over the anomalies of a pass. */
  function ProcessAll(cfg: Config, p: Pass, inputs: seq<Input>, n: nat): Pass
    requires n <= |inputs|
  {
    if n == 0 then p
    else
      var x := inputs[n - 1];
      Process(cfg, ProcessAll(cfg, p, inputs, n - 1), KeysOf(cfg, x.anomaly), x.choice, x.now, x.end)
  }

  // ---------- The verification job ----------

  predicate PendingFix(k: Keys, incident: string, key: string, now: Time) {
    Live(Get(k.prs, incident), now) || Live(Get(k.handoffs, key), now)
  }

  /** One run of the job; a date job leaves the scheduler when it runs. */
  function Verify(cfg: Config, k: Keys, jobs: map<string, Job>, incident: string, now: Time,
                  healthy: bool, recent: bool, rollbackOk: bool): (r: (map<string, Job>, seq<Event>))
    requires incident in jobs
  {
    var job, left := jobs[incident], jobs - {incident};
    if healthy then (left, [Event(Decided(Healthy), now, incident)])
    else if PendingFix(k, incident, job.key, now) then
      (left[incident := Job(now + cfg.delay, job.key)], [Event(Waiting, now, incident)])
    else if recent then
      var verdict := if rollbackOk then RollbackOk else RollbackError;
      (left, [Event(RolledBack, now, job.key), Event(Decided(verdict), now, incident)])
    else (left, [Event(Decided(Unresolved), now, incident)])
  }

  // ---------- The same as methods on the shared store ----------

  class Store {
    var incidents: map<string, Entry<()>>
    var restarts: map<string, Entry<nat>>
    var handoffs: map<string, Entry<()>>
    var prs: map<string, Entry<()>>

    constructor ()
      ensures Value() == Keys(map[], map[], map[], map[])
    {
      incidents, restarts, handoffs, prs := map[], map[], map[], map[];
    }

    function Value(): Keys
      reads this
    {
      Keys(incidents, restarts, handoffs, prs)
    }
  }

  /** The SRE agent of one pod: its scheduler's jobs, over the shared store. */
  class Agent {
    const cfg: Config
    const store: Store
    var jobs: map<string, Job>

    constructor (cfg: Config, store: Store)
      ensures this.cfg == cfg && this.store == store && jobs == map[]
    {
      this.cfg, this.store, jobs := cfg, store, map[];
    }

    method CheckRestartLimit(key: string, now: Time) returns (limited: bool)
      ensures limited <==> LimitReached(cfg, store.Value(), key, now)
    {
      var slot := Get(store.restarts, key);
      var count := if Live(slot, now) then slot.value.value else 0;
      limited := count >= cfg.maxRestarts;
    }

    method RecordRestartAttempt(key: string, now: Time)
      modifies store
      ensures store.Value() == RecordRestart(cfg, old(store.Value()), key, now)
    {
      var count := Incr(Get(store.restarts, key), now);
      store.restarts := store.restarts[key := Expire(count, now, cfg.window)];
    }

    method HandoffToCamael(key: string, fixable: bool, now: Time) returns (started: bool)
      modifies store
      ensures started <==> fixable && !Live(Get(old(store.handoffs), key), now)
      ensures store.Value() == if fixable then TakeHandoff(old(store.Value()), key, now) else old(store.Value())
    {
      if !fixable || Live(Get(store.handoffs, key), now) {
        return false;
      }
      store.handoffs := store.handoffs[key := Expire(Entry((), None), now, HANDOFF_TTL)];
      return true;
    }

    /** A job with the same id is replaced. */
    method ScheduleVerification(incident: string, key: string, now: Time)
      modifies this`jobs
      ensures jobs == old(jobs)[incident := Job(now + cfg.delay, key)]
    {
      jobs := jobs[incident := Job(now + cfg.delay, key)];
    }

    /** The scheduler's loop over the manifest map for the counter of restarts. */
    method RecordedKey(a: Anomaly) returns (key: string)
      ensures key == KeysOf(cfg, a).recorded
    {
      var target := Resource(a);
      for i := 0 to |cfg.appKeys|
        invariant target == Resource(a)
        invariant TargetFrom(cfg.appKeys, target, 0) == TargetFrom(cfg.appKeys, target, i)
      {
        if target != cfg.appKeys[i] && Covers(cfg.appKeys[i], target) {
          return InNamespace(a, cfg.appKeys[i]);
        }
      }
      return InNamespace(a, target);
    }

    /** Its loop over the map for the deployment to verify. */
    method VerifiedKey(a: Anomaly) returns (key: string)
      ensures key == KeysOf(cfg, a).verified
    {
      var deploy := Resource(a);
      for i := 0 to |cfg.appKeys|
        invariant deploy == Resource(a)
        invariant BaseFrom(cfg.appKeys, deploy, 0) == BaseFrom(cfg.appKeys, deploy, i)
      {
        if deploy == cfg.appKeys[i] || Covers(cfg.appKeys[i], deploy) {
          return InNamespace(a, cfg.appKeys[i]);
        }
      }
      return InNamespace(a, deploy);
    }

    method ProcessAnomaly(
      a: Anomaly, choice: Choice, dispatched: set<string>, ghost log: seq<Event>, now: Time, end: Time)
      returns (dispatched': set<string>, ghost log': seq<Event>)
      modifies store, this`jobs
      ensures Pass(store.Value(), jobs, dispatched', log')
           == Process(cfg, Pass(old(store.Value()), old(jobs), dispatched, log), KeysOf(cfg, a), choice, now, end)
    {
      dispatched', log' := dispatched, log;
      var n := KeysOf(cfg, a);
      var incident := n.incident;
      if Live(Get(store.incidents, incident), now) {
        return;
      }
      var restarted := false;
      if choice.Restart? {
        var limited := CheckRestartLimit(n.checked, now);
        if !limited {
          log' := log' + [Event(Restarted, now, n.checked)];
          restarted := choice.ok;
        }
        var recorded := RecordedKey(a);
        RecordRestartAttempt(recorded, end);
      }
      store.incidents := Dedup.MarkStore(store.incidents, incident, end, cfg.ttl(incident));
      log' := log' + [Event(Acted, now, incident)];
      if restarted {
        var verified := VerifiedKey(a);
        if verified !in dispatched {
          var started := HandoffToCamael(n.taken, choice.fixable, end);
          log' := log' + if started then [Event(HandedOff, end, n.taken)] else [];
          dispatched' := dispatched + {verified};
        }
        ScheduleVerification(incident, verified, end);
      }
    }

    /** The loop over the anomalies; what was dispatched is forgotten with the pass. */
    method RunPass(inputs: seq<Input>, ghost log: seq<Event>)
      returns (ghost dispatched': set<string>, ghost log': seq<Event>)
      modifies store, this`jobs
      ensures Pass(store.Value(), jobs, dispatched', log')
           == ProcessAll(cfg, Pass(old(store.Value()), old(jobs), {}, log), inputs, |inputs|)
    {
      ghost var start := Pass(store.Value(), jobs, {}, log);
      var dispatched: set<string> := {};
      log' := log;
      for i := 0 to |inputs|
        invariant Pass(store.Value(), jobs, dispatched, log') == ProcessAll(cfg, start, inputs, i)
      {
        var x := inputs[i];
        dispatched, log' := ProcessAnomaly(x.anomaly, x.choice, dispatched, log', x.now, x.end);
      }
      dispatched' := dispatched;
    }

    method RunVerificationJob(incident: string, now: Time, healthy: bool, recent: bool, rollbackOk: bool)
      returns (ghost events: seq<Event>)
      requires incident in jobs
      modifies this`jobs
      ensures (jobs, events) == Verify(cfg, store.Value(), old(jobs), incident, now, healthy, recent, rollbackOk)
    {
      var key := jobs[incident].key;
      jobs := jobs - {incident};
      if healthy {
        events := [Event(Decided(Healthy), now, incident)];
      } else if Live(Get(store.prs, incident), now) || Live(Get(store.handoffs, key), now) {
        events := [Event(Waiting, now, incident)];
        ScheduleVerification(incident, key, now);
      } else if recent {
        var verdict := if rollbackOk then RollbackOk else RollbackError;
        events := [Event(RolledBack, now, key), Event(Decided(verdict), now, incident)];
      } else {
        events := [Event(Decided(Unresolved), now, incident)];
      }
    }
  }

  // ---------- One turn ----------

  predicate Is(e: Event, kind: Kind, key: string) {
    e.kind == kind && e.key == key
  }

  /** The effects of one turn, in their order. */
  function TurnEvents(cfg: Config, p: Pass, n: TurnKeys, choice: Choice, now: Time, end: Time): seq<Event> {
    if Dedup.InStore(p.keys.incidents, n.incident, now) then []
    else
      var acted := [Event(Acted, now, n.incident)];
      if !choice.Restart? then acted
      else if LimitReached(cfg, p.keys, n.checked, now) then acted
      else
        var restarted := [Event(Restarted, now, n.checked)] + acted;
        if choice.ok && choice.fixable && n.verified !in p.dispatched && !Live(Get(p.keys.handoffs, n.taken), end)
        then restarted + [Event(HandedOff, end, n.taken)] else restarted
  }

  lemma ProcessIs(cfg: Config, p: Pass, n: TurnKeys, choice: Choice, now: Time, end: Time)
    ensures var q, events := Process(cfg, p, n, choice, now, end), TurnEvents(cfg, p, n, choice, now, end);
      && q.log == p.log + events
      && q.keys.prs == p.keys.prs
      && q.keys.incidents == (if events == [] then p.keys.incidents
                              else Dedup.MarkStore(p.keys.incidents, n.incident, end, cfg.ttl(n.incident)))
      && q.keys.handoffs == (if |events| == 3 then p.keys.handoffs[n.taken := Expire(Entry((), None), end, HANDOFF_TTL)]
                             else p.keys.handoffs)
      && q.keys.restarts == (if events == [] || !choice.Restart? then p.keys.restarts
                             else RecordRestart(cfg, p.keys, n.recorded, end).restarts)
  {
    var q := Process(cfg, p, n, choice, now, end);
    if !Dedup.InStore(p.keys.incidents, n.incident, now) && choice.Restart? {
      var restarted, acted := Event(Restarted, now, n.checked), Event(Acted, now, n.incident);
      if LimitReached(cfg, p.keys, n.checked, now) {
        assert p.log + [] + [acted] == p.log + [acted];
      } else {
        var handed := [Event(HandedOff, end, n.taken)];
        assert p.log + [restarted] + [acted] == p.log + ([restarted] + [acted]);
        assert p.log + ([restarted] + [acted]) + [] == p.log + ([restarted] + [acted]);
        assert p.log + ([restarted] + [acted]) + handed == p.log + ([restarted] + [acted] + handed);
      }
    }
  }

  /** The effects of a turn: none, an action, a restart before it, a handoff after it. */
  predicate Shape(events: seq<Event>, n: TurnKeys, now: Time, end: Time) {
    var r, a, h := Event(Restarted, now, n.checked), Event(Acted, now, n.incident), Event(HandedOff, end, n.taken);
    events == [] || events == [a] || events == [r, a] || events == [r, a, h]
  }

  lemma TurnShape(cfg: Config, p: Pass, n: TurnKeys, choice: Choice, now: Time, end: Time)
    ensures var events := TurnEvents(cfg, p, n, choice, now, end);
      && Shape(events, n, now, end)
      && (events != [] ==> !Dedup.InStore(p.keys.incidents, n.incident, now))
      && (|events| == 3 ==> !Live(Get(p.keys.handoffs, n.taken), end))
  {
  }

  function HandoffsIn(log: seq<Event>, key: string): nat {
    if log == [] then 0
    else HandoffsIn(log[..|log| - 1], key) + if Is(log[|log| - 1], HandedOff, key) then 1 else 0
  }

  lemma {:induction false} HandoffsAppend(log: seq<Event>, events: seq<Event>, key: string)
    ensures HandoffsIn(log + events, key) == HandoffsIn(log, key) + HandoffsIn(events, key)
  {
    if events == [] {
      assert log + events == log;
    } else {
      assert (log + events)[..|log + events| - 1] == log + events[..|events| - 1];
      HandoffsAppend(log, events[..|events| - 1], key);
    }
  }

  lemma TurnHandoffs(events: seq<Event>, n: TurnKeys, now: Time, end: Time, key: string)
    requires Shape(events, n, now, end)
    ensures HandoffsIn(events, key) == if |events| == 3 && n.taken == key then 1 else 0
  {
    if |events| >= 2 {
      assert events[..|events| - 1][..|events| - 2] == events[..|events| - 2];
    }
    if |events| == 3 {
      assert events[..1][..0] == [];
    }
  }

  /** One pass hands a deployment over at most once, however long the pass takes. */
  lemma {:induction false} OneHandoffPerPass(cfg: Config, p: Pass, inputs: seq<Input>, n: nat, key: string)
    requires n <= |inputs| && p.dispatched == {}
    ensures var q := ProcessAll(cfg, p, inputs, n);
      HandoffsIn(q.log, key) <= HandoffsIn(p.log, key) + if key in q.dispatched then 1 else 0
  {
    if n > 0 {
      var x, before := inputs[n - 1], ProcessAll(cfg, p, inputs, n - 1);
      var keys := KeysOf(cfg, x.anomaly);
      OneHandoffPerPass(cfg, p, inputs, n - 1, key);
      KeysAgree(cfg, x.anomaly);
      OneTurn(cfg, before, keys, x.choice, x.now, x.end, key);
    }
  }

  lemma OneTurn(cfg: Config, p: Pass, n: TurnKeys, choice: Choice, now: Time, end: Time, key: string)
    requires Agreeing(n)
    ensures var q := Process(cfg, p, n, choice, now, end);
      && p.dispatched <= q.dispatched
      && HandoffsIn(q.log, key) <= HandoffsIn(p.log, key) + if key in q.dispatched - p.dispatched then 1 else 0
  {
    var events := TurnEvents(cfg, p, n, choice, now, end);
    ProcessIs(cfg, p, n, choice, now, end);
    TurnShape(cfg, p, n, choice, now, end);
    HandoffsAppend(p.log, events, key);
    TurnHandoffs(events, n, now, end, key);
  }

  /** What a turn does: nothing for a duplicate; else an action, which is a restart exactly when
      one was chosen and the counter is below the maximum; and a handoff exactly after a restart
      that was carried out, of an issue with a fix, not dispatched in this pass, to a free key. */
  lemma TurnDoes(cfg: Config, p: Pass, n: TurnKeys, choice: Choice, now: Time, end: Time) returns (events: seq<Event>)
    ensures var q := Process(cfg, p, n, choice, now, end);
      var duplicate := Live(Get(p.keys.incidents, n.incident), now);
      var restarts := !duplicate && choice.Restart? && Counted(Get(p.keys.restarts, n.checked), now) < cfg.maxRestarts;
      && q.log == p.log + events
      && (Event(Acted, now, n.incident) in events <==> !duplicate)
      && (Event(Restarted, now, n.checked) in events <==> restarts)
      && (Event(HandedOff, end, n.taken) in events <==>
            restarts && choice.ok && choice.fixable && n.verified !in p.dispatched
            && !Live(Get(p.keys.handoffs, n.taken), end))
      && (duplicate ==> q == p)
  {
    ProcessIs(cfg, p, n, choice, now, end);
    events := TurnEvents(cfg, p, n, choice, now, end);
  }

  /** Two sequences that start alike and make the same steps stay alike. */
  lemma {:induction false} SameSteps<S, X>(g: nat -> S, h: nat -> S, step: (S, X) -> S, xs: seq<X>, n: nat)
    requires n <= |xs| && g(0) == h(0)
    requires forall k: nat | k < |xs| :: g(k + 1) == step(g(k), xs[k]) && h(k + 1) == step(h(k), xs[k])
    ensures g(n) == h(n)
  {
    if n > 0 {
      SameSteps(g, h, step, xs, n - 1);
      assert g(n - 1 + 1) == step(g(n - 1), xs[n - 1]) && h(n - 1 + 1) == step(h(n - 1), xs[n - 1]);
    }
  }

  /** A pass takes the anomalies in their order: with one more at the end, it does what it did
      and then the turn of that one. */
  lemma PassInOrder(cfg: Config, p: Pass, a: seq<Input>, x: Input)
    ensures ProcessAll(cfg, p, a + [x], |a| + 1) == TurnOf(cfg, ProcessAll(cfg, p, a, |a|), x)
    ensures ProcessAll(cfg, p, [], 0) == p
  {
    PassFront(cfg, p, a, [x]);
    LastTurn(cfg, p, a + [x], |a| + 1, x);
  }

  lemma PassFront(cfg: Config, p: Pass, a: seq<Input>, b: seq<Input>)
    ensures ProcessAll(cfg, p, a + b, |a|) == ProcessAll(cfg, p, a, |a|)
  {
    var g := (k: nat) => if k <= |a| then ProcessAll(cfg, p, a + b, k) else p;
    var h := (k: nat) => if k <= |a| then ProcessAll(cfg, p, a, k) else p;
    forall k: nat | k < |a|
      ensures g(k + 1) == TurnOf(cfg, g(k), a[k]) && h(k + 1) == TurnOf(cfg, h(k), a[k])
    {
      LastTurn(cfg, p, a + b, k + 1, a[k]);
      LastTurn(cfg, p, a, k + 1, a[k]);
    }
    SameSteps(g, h, (r: Pass, x: Input) => TurnOf(cfg, r, x), a, |a|);
  }

  function TurnOf(cfg: Config, p: Pass, x: Input): Pass {
    Process(cfg, p, KeysOf(cfg, x.anomaly), x.choice, x.now, x.end)
  }

  lemma LastTurn(cfg: Config, p: Pass, inputs: seq<Input>, n: nat, x: Input)
    requires 0 < n <= |inputs| && inputs[n - 1] == x
    ensures ProcessAll(cfg, p, inputs, n) == TurnOf(cfg, ProcessAll(cfg, p, inputs, n - 1), x)
  {
  }

  /** What a counter reads. */
  function Counted(slot: Slot<nat>, now: Time): nat {
    if Live(slot, now) then slot.value.value else 0
  }

  /** What a turn leaves in the store: an incident that was acted on is a duplicate for its time,
      a restart that was chosen counts, and no other key changes. */
  lemma TurnLeaves(cfg: Config, p: Pass, n: TurnKeys, choice: Choice, now: Time, end: Time, t: Time)
    requires !Live(Get(p.keys.incidents, n.incident), now)
    ensures var q := Process(cfg, p, n, choice, now, end);
      && (Live(Get(q.keys.incidents, n.incident), t) <==> t < end + cfg.ttl(n.incident))
      && (choice.Restart? ==>
            Get(q.keys.restarts, n.recorded)
              == Some(Entry(Counted(Get(p.keys.restarts, n.recorded), end) + 1, Some(end + cfg.window))))
      && (!choice.Restart? ==> q.keys.restarts == p.keys.restarts)
      && (|q.log| == |p.log| + 3 ==> (Live(Get(q.keys.handoffs, n.taken), t) <==> t < end + 7_200_000_000))
      && (|q.log| < |p.log| + 3 ==> q.keys.handoffs == p.keys.handoffs)
      && q.keys.prs == p.keys.prs
      && (forall k | k != n.incident :: Get(q.keys.incidents, k) == Get(p.keys.incidents, k))
      && (forall k | k != n.recorded :: Get(q.keys.restarts, k) == Get(p.keys.restarts, k))
      && (forall k | k != n.taken :: Get(q.keys.handoffs, k) == Get(p.keys.handoffs, k))
  {
    ProcessIs(cfg, p, n, choice, now, end);
  }

  /** A verification is scheduled exactly after a restart that was carried out, for the
      incident, one delay after the turn. */
  lemma VerifiedExactlyAfterRestart(cfg: Config, p: Pass, n: TurnKeys, choice: Choice, now: Time, end: Time)
    ensures var events := TurnEvents(cfg, p, n, choice, now, end);
      Process(cfg, p, n, choice, now, end).jobs
        == if Event(Restarted, now, n.checked) in events && choice.Restart? && choice.ok
           then p.jobs[n.incident := Job(end + cfg.delay, n.verified)] else p.jobs
  {
  }

  /** The key that a handoff takes is the one that the verification of the same turn reads:
      for 7200 s it finds a pending fix and waits. */
  lemma VerificationWaitsForHandoff(cfg: Config, p: Pass, a: Anomaly, choice: Choice, now: Time, end: Time, t: Time)
    requires exists e | e in TurnEvents(cfg, p, KeysOf(cfg, a), choice, now, end) :: e.kind == HandedOff
    requires end <= t < end + HANDOFF_TTL
    ensures var q, incident := Process(cfg, p, KeysOf(cfg, a), choice, now, end), KeysOf(cfg, a).incident;
      incident in q.jobs && PendingFix(q.keys, incident, q.jobs[incident].key, t)
  {
    KeysAgree(cfg, a);
    HandoffIsFound(cfg, p, KeysOf(cfg, a), choice, now, end, t);
  }

  lemma HandoffIsFound(cfg: Config, p: Pass, n: TurnKeys, choice: Choice, now: Time, end: Time, t: Time)
    requires Agreeing(n) && exists e | e in TurnEvents(cfg, p, n, choice, now, end) :: e.kind == HandedOff
    requires end <= t < end + HANDOFF_TTL
    ensures var q := Process(cfg, p, n, choice, now, end);
      n.incident in q.jobs && PendingFix(q.keys, n.incident, q.jobs[n.incident].key, t)
  {
    TurnShape(cfg, p, n, choice, now, end);
    ProcessIs(cfg, p, n, choice, now, end);
    VerifiedExactlyAfterRestart(cfg, p, n, choice, now, end);
  }

  // ---------- One verification ----------

  /** Which verdict is written, and when. */
  predicate VerdictIs(kind: Kind, healthy: bool, waits: bool, recent: bool, rollbackOk: bool) {
    && (kind == Decided(Healthy) <==> healthy)
    && (kind == Decided(Unresolved) <==> !healthy && !waits && !recent)
    && (kind == Decided(RollbackOk) <==> !healthy && !waits && recent && rollbackOk)
    && (kind == Decided(RollbackError) <==> !healthy && !waits && recent && !rollbackOk)
  }

  /** Each run of a job writes one terminal verdict and is gone, or is scheduled again,
      once, one delay later; it waits exactly when the deployment is unhealthy and a fix is
      pending, and rolls back exactly when none is and the deployment is recent. */
  lemma JobRunsOnce(cfg: Config, k: Keys, jobs: map<string, Job>, incident: string, now: Time,
                    healthy: bool, recent: bool, rollbackOk: bool)
    requires incident in jobs
    ensures var (after, events) := Verify(cfg, k, jobs, incident, now, healthy, recent, rollbackOk);
      var waits := !healthy && PendingFix(k, incident, jobs[incident].key, now);
      && after - {incident} == jobs - {incident}
      && (incident in after <==> waits)
      && (waits ==> after[incident] == Job(now + cfg.delay, jobs[incident].key))
      && events != [] && events[|events| - 1].key == incident
      && (events[|events| - 1].kind == Waiting <==> waits)
      && (events[|events| - 1].kind.Decided? <==> !waits)
      && (forall i | 0 <= i < |events| - 1 :: events[i] == Event(RolledBack, now, jobs[incident].key))
      && (|events| > 1 <==> !healthy && !waits && recent)
      && (|events| > 1 ==> |events| == 2)
      && VerdictIs(events[|events| - 1].kind, healthy, waits, recent, rollbackOk)
      && (PendingFix(k, incident, jobs[incident].key, now) <==>
            Live(Get(k.prs, incident), now) || Live(Get(k.handoffs, jobs[incident].key), now))
  {
    var r := Verify(cfg, k, jobs, incident, now, healthy, recent, rollbackOk);
    assert r.0 - {incident} == jobs - {incident};
  }
}
