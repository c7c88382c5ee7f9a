/** Leader election over a versioned Lease object: pods interleave the read and the
    conditional replace of one pass, under a shared clock. Times are microseconds. */
module Lease {
  import opened Text
  import opened KeyStore

  const LEASE_DURATION := 90 * SECOND

  /** `version` is the resource version that a replace must match. */
  datatype Lease = Lease(version: nat, holder: string, renew: Option<Time>)

  /** Where one pod stands in its pass; `now` is the time the pass captured first. */
  datatype Phase =
    | Idle
    | Started(now: Time)
    | HasRead(now: Time, seen: Option<Lease>)
    | InBody(now: Time, failOpen: bool)

  datatype State = State(clock: Time, lease: Option<Lease>, pods: map<string, Phase>)

  datatype Action =
    | Tick(to: Time)
    | Start(pod: string)
    | Read(pod: string)       // a missing Lease is the 404 answer
    | Decide(pod: string)     // step aside, replace, or create
    | ApiError(pod: string)   // any other failure of the API
    | Finish(pod: string)

  function PhaseOf(s: State, pod: string): Phase {
    if pod in s.pods then s.pods[pod] else Idle
  }

  predicate Expired(l: Lease, now: Time) {
    l.renew.None? || now - l.renew.value > LEASE_DURATION
  }

  predicate Enabled(s: State, a: Action) {
    match a
    case Tick(to) => s.clock <= to
    case Start(p) => PhaseOf(s, p).Idle?
    case Read(p) => PhaseOf(s, p).Started?
    case Decide(p) => PhaseOf(s, p).HasRead?
    case ApiError(p) => PhaseOf(s, p).Started? || PhaseOf(s, p).HasRead?
    case Finish(p) => PhaseOf(s, p).InBody?
  }

  function Enter(s: State, pod: string, phase: Phase): State {
    s.(pods := s.pods[pod := phase])
  }

  /** The pass after its read. The conflict of a replace makes the pod step aside; the
      conflict of a create is caught by the outer handler, which assumes leadership. */
  function DecideStep(s: State, pod: string, now: Time, seen: Option<Lease>): State {
    if seen.None? then
      if s.lease.None? then Enter(s, pod, InBody(now, false)).(lease := Some(Lease(0, pod, Some(now))))
      else Enter(s, pod, InBody(now, true))
    else if seen.value.holder != pod && !Expired(seen.value, now) then Enter(s, pod, Idle)
    else if s.lease.Some? && s.lease.value.version == seen.value.version then
      Enter(s, pod, InBody(now, false)).(lease := Some(Lease(seen.value.version + 1, pod, Some(now))))
    else Enter(s, pod, Idle)
  }

  function Step(s: State, a: Action): State
    requires Enabled(s, a)
  {
    match a
    case Tick(to) => s.(clock := to)
    case Start(p) => Enter(s, p, Started(s.clock))
    case Read(p) => Enter(s, p, HasRead(PhaseOf(s, p).now, s.lease))
    case Decide(p) => DecideStep(s, p, PhaseOf(s, p).now, PhaseOf(s, p).seen)
    case ApiError(p) => Enter(s, p, InBody(PhaseOf(s, p).now, true))
    case Finish(p) => Enter(s, p, Idle)
  }

  /** No pass is under way, and the Lease, if there is one, was not renewed in the future. */
  predicate Initial(s: State) {
    && s.pods == map[]
    && (s.lease.Some? && s.lease.value.renew.Some? ==> s.lease.value.renew.value <= s.clock)
  }

  ghost predicate IsRun(run: seq<State>, actions: seq<Action>) {
    && |run| == |actions| + 1
    && Initial(run[0])
    && forall i | 0 <= i < |actions| :: Enabled(run[i], actions[i]) && run[i + 1] == Step(run[i], actions[i])
  }

  /** The pod is in the loop body because it holds, or held, the Lease. */
  predicate Leads(s: State, pod: string) {
    PhaseOf(s, pod).InBody? && !PhaseOf(s, pod).failOpen
  }

  // ---------- The invariant ----------

  ghost predicate PodInv(s: State, p: string) {
    var phase := PhaseOf(s, p);
    && (!phase.Idle? ==> phase.now <= s.clock)
    // What a pod has read is an older version or the present Lease itself.
    && (phase.HasRead? && phase.seen.Some? ==>
         && s.lease.Some? && phase.seen.value.version <= s.lease.value.version
         && (phase.seen.value.version == s.lease.value.version ==> phase.seen == s.lease))
    // A pod's own renewals are older than its present pass.
    && (phase.Started? || phase.HasRead? ==>
         s.lease.Some? && s.lease.value.holder == p && s.lease.value.renew.Some? ==>
           s.lease.value.renew.value <= phase.now)
    // A leading pod still holds the Lease, or lost it more than 90 s after its `now`.
    && (Leads(s, p) ==>
         && s.lease.Some? && s.lease.value.renew.Some?
         && ((s.lease.value.holder == p && s.lease.value.renew.value == phase.now)
             || s.lease.value.renew.value > phase.now + LEASE_DURATION))
  }

  ghost predicate Inv(s: State) {
    && (s.lease.Some? && s.lease.value.renew.Some? ==> s.lease.value.renew.value <= s.clock)
    && forall p :: PodInv(s, p)
  }

  lemma InvKept(s: State, a: Action)
    requires Inv(s) && Enabled(s, a)
    ensures Inv(Step(s, a))
  {
    var t := Step(s, a);
    if a.Decide? {
      assert PodInv(s, a.pod);
    }
    forall p
      ensures PodInv(t, p)
    {
      assert PodInv(s, p);
      if !a.Tick? {
        assert PodInv(s, a.pod);
      }
    }
  }

  lemma {:induction false} RunInv(run: seq<State>, actions: seq<Action>, i: nat)
    requires IsRun(run, actions) && i < |run|
    ensures Inv(run[i])
  {
    if i > 0 {
      RunInv(run, actions, i - 1);
      InvKept(run[i - 1], actions[i - 1]);
    }
  }

  // ---------- Main results ----------

  /** Mutual exclusion in every run: two pods that entered through the Lease are in the
      loop body together only if one of them is more than 90 s past the `now` of its
      pass. So if every pass ends in time, there is one leader. */
  lemma OneLeader(run: seq<State>, actions: seq<Action>, i: nat, p: string, q: string)
    requires IsRun(run, actions) && i < |run| && p != q
    requires Leads(run[i], p) && Leads(run[i], q)
    ensures run[i].clock > PhaseOf(run[i], p).now + LEASE_DURATION
         || run[i].clock > PhaseOf(run[i], q).now + LEASE_DURATION
  {
    RunInv(run, actions, i);
    assert PodInv(run[i], p) && PodInv(run[i], q);
  }

  /** A pod takes the Lease over from another holder only with a `now` more than 90 s past
      that holder's last renewal. */
  lemma Takeover(run: seq<State>, actions: seq<Action>, i: nat)
    requires IsRun(run, actions) && i < |actions| && run[i].lease.Some?
    requires run[i + 1].lease != run[i].lease && run[i + 1].lease.value.holder != run[i].lease.value.holder
    ensures run[i + 1].lease.value.renew.Some?
    ensures run[i].lease.value.renew.Some? ==>
      run[i + 1].lease.value.renew.value > run[i].lease.value.renew.value + LEASE_DURATION
    ensures Leads(run[i + 1], run[i + 1].lease.value.holder)
  {
    RunInv(run, actions, i);
    var a := actions[i];
    assert a.Decide?;
    assert PodInv(run[i], a.pod);
  }

  /** The limit of the claim: an entry by the fail-open path is not covered. When the
      Lease does not exist yet, the loser of the create race leads beside the winner, at
      the very time both passes started. */
  lemma CreateRace(p: string, q: string, t: Time) returns (run: seq<State>, actions: seq<Action>)
    requires p != q
    ensures IsRun(run, actions)
    ensures var last := run[|actions|];
      last.clock == t && PhaseOf(last, p) == InBody(t, false) && PhaseOf(last, q) == InBody(t, true)
  {
    actions := [Start(p), Start(q), Read(p), Read(q), Decide(p), Decide(q)];
    var s0 := State(t, None, map[]);
    var s1 := Step(s0, actions[0]);
    var s2 := Step(s1, actions[1]);
    var s3 := Step(s2, actions[2]);
    var s4 := Step(s3, actions[3]);
    var s5 := Step(s4, actions[4]);
    var s6 := Step(s5, actions[5]);
    run := [s0, s1, s2, s3, s4, s5, s6];
  }

  /** A pass that nobody interferes with. */
  function WholePass(s: State, pod: string): State
    requires PhaseOf(s, pod).Idle?
  {
    var s1 := Step(s, Start(pod));
    var s2 := Step(s1, Read(pod));
    Step(s2, Decide(pod))
  }

  /** Alone, a pod leads after its pass exactly when there is no Lease, it holds the Lease, or the
      Lease was not renewed for more than 90 s; and then it holds it, renewed now. Otherwise it
      steps aside and leaves the Lease as it is. */
  lemma AloneItLeads(s: State, pod: string)
    requires PhaseOf(s, pod).Idle?
    ensures var t := WholePass(s, pod);
      var free := s.lease.None? || s.lease.value.holder == pod || s.lease.value.renew.None?
        || s.clock - s.lease.value.renew.value > 90_000_000;
      && (Leads(t, pod) <==> free)
      && (free ==> t.lease.Some? && t.lease.value.holder == pod && t.lease.value.renew == Some(s.clock))
      && (free && s.lease.Some? ==> t.lease.value.version > s.lease.value.version)
      && (!free ==> PhaseOf(t, pod).Idle? && t.lease == s.lease)
      && t.clock == s.clock && forall p | p != pod :: PhaseOf(t, p) == PhaseOf(s, p)
  {
  }

  /** A pod whose read is overtaken by another renewal steps aside. */
  lemma OvertakenStepsAside(s: State, pod: string)
    requires PhaseOf(s, pod).HasRead? && PhaseOf(s, pod).seen.Some?
    requires s.lease.Some? && s.lease.value.version != PhaseOf(s, pod).seen.value.version
    ensures Step(s, Decide(pod)).lease == s.lease && PhaseOf(Step(s, Decide(pod)), pod).Idle?
  {
  }

  /** Any other failure of the API makes the pod lead, and nothing changes but its phase. */
  lemma ErrorsLead(s: State, pod: string)
    requires PhaseOf(s, pod).Started? || PhaseOf(s, pod).HasRead?
    ensures Enabled(s, ApiError(pod))
    ensures var t := Step(s, ApiError(pod));
      PhaseOf(t, pod) == InBody(PhaseOf(s, pod).now, true) && t.lease == s.lease && t.clock == s.clock
  {
  }

  /** A pod that has finished its pass keeps the Lease. */
  lemma FinishKeepsLease(s: State, pod: string)
    requires PhaseOf(s, pod).InBody?
    ensures Step(s, Finish(pod)).lease == s.lease && PhaseOf(Step(s, Finish(pod)), pod).Idle?
  {
  }
}
