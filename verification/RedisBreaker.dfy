/** The circuit breaker whose state lives in three keys of the shared store. */
module RedisBreaker {
  import opened Text
  import opened KeyStore

  datatype Mode = Closed | Open | HalfOpen

  datatype Keys = Keys(state: Slot<Mode>, failures: Slot<nat>, openedAt: Slot<Time>)

  const EMPTY := Keys(None, None, None)

  function GetState(k: Keys, now: Time): Mode {
    if Live(k.state, now) then k.state.value.value else Closed
  }

  predicate Cooled(k: Keys, recovery: Time, now: Time) {
    Live(k.openedAt, now) && now - k.openedAt.value.value >= recovery
  }

  predicate Rejects(k: Keys, recovery: Time, now: Time) {
    GetState(k, now) == Open && !Cooled(k, recovery, now)
  }

  /** Asking whether the circuit is open; setting the state drops the key's expiry. */
  function Ask(k: Keys, recovery: Time, now: Time): Keys {
    if GetState(k, now) == Open && Cooled(k, recovery, now) then k.(state := Some(Entry(HalfOpen, None))) else k
  }

  function Succeed(k: Keys, now: Time): Keys {
    if GetState(k, now) != Closed then Keys(Some(Entry(Closed, None)), None, None) else k.(failures := None)
  }

  function Fail(k: Keys, threshold: int, recovery: Time, now: Time): Keys {
    var failures := Expire(Incr(k.failures, now), now, recovery * 4);
    if failures.value >= threshold then
      Keys(Some(Expire(Entry(Open, None), now, recovery * 10)), Some(failures), Some(Entry(now, None)))
    else k.(failures := Some(failures))
  }

  class CircuitBreaker {
    const threshold: int
    const recovery: Time
    var state: Slot<Mode>
    var failures: Slot<nat>
    var openedAt: Slot<Time>

    function Value(): Keys
      reads this
    {
      Keys(state, failures, openedAt)
    }

    constructor (threshold: int, recovery: Time)
      ensures this.threshold == threshold && this.recovery == recovery && Value() == EMPTY
    {
      this.threshold, this.recovery := threshold, recovery;
      state, failures, openedAt := None, None, None;
    }

    method IsOpen(now: Time) returns (open: bool)
      modifies this
      ensures Value() == Ask(old(Value()), recovery, now)
      ensures open <==> Rejects(old(Value()), recovery, now)
    {
      var mode := GetState(Value(), now);
      if mode == Closed {
        return false;
      }
      if mode == Open {
        if Live(openedAt, now) {
          var elapsed := now - openedAt.value.value;
          if elapsed >= recovery {
            state := Some(Entry(HalfOpen, None));
            return false;
          }
        }
        return true;
      }
      return false;
    }

    method RecordSuccess(now: Time)
      modifies this
      ensures Value() == Succeed(old(Value()), now)
    {
      if GetState(Value(), now) in {HalfOpen, Open} {
        state := Some(Entry(Closed, None));
        failures, openedAt := None, None;
      } else {
        failures := None;
      }
    }

    method RecordFailure(now: Time)
      modifies this
      ensures Value() == Fail(old(Value()), threshold, recovery, now)
    {
      var count := Incr(failures, now);
      count := Expire(count, now, recovery * 4);
      failures := Some(count);
      if count.value >= threshold {
        state := Some(Entry(Open, None));
        openedAt := Some(Entry(now, None));
        state := Some(Expire(state.value, now, recovery * 10));
      }
    }
  }

  // ---------- Histories ----------

  datatype Event = Success(time: Time) | Failure(time: Time) | Asked(time: Time)

  predicate InOrder(events: seq<Event>) {
    forall i, j | 0 <= i < j < |events| :: events[i].time <= events[j].time
  }

  function Apply(k: Keys, threshold: int, recovery: Time, e: Event): Keys {
    match e
    case Success(t) => Succeed(k, t)
    case Failure(t) => Fail(k, threshold, recovery, t)
    case Asked(t) => Ask(k, recovery, t)
  }

  function After(events: seq<Event>, threshold: int, recovery: Time): Keys {
    if events == [] then EMPTY
    else Apply(After(events[..|events| - 1], threshold, recovery), threshold, recovery, events[|events| - 1])
  }

  predicate NoSuccessFrom(events: seq<Event>, i: nat) {
    forall k | i <= k < |events| :: !events[k].Success?
  }

  /** Time of the last failure, unless a success came after it. */
  function LastFailure(events: seq<Event>): Option<Time> {
    if events == [] || events[|events| - 1].Success? then None
    else if events[|events| - 1].Failure? then Some(events[|events| - 1].time)
    else LastFailure(events[..|events| - 1])
  }

  /** Failures since the last success or the last quiet period of four recovery times, as
      they stand at `now`. */
  function FailuresAt(events: seq<Event>, recovery: Time, now: Time): nat
    decreases |events|
  {
    var last := LastFailure(events);
    if last.None? || now - last.value >= recovery * 4 then 0 else Streak(events, recovery)
  }

  /** The same count, as it stood right after the last failure. */
  function Streak(events: seq<Event>, recovery: Time): nat
    decreases |events|, 0
  {
    if events == [] || events[|events| - 1].Success? then 0
    else
      var before, last := events[..|events| - 1], events[|events| - 1];
      if last.Failure? then
        (if LastFailure(before).None? || last.time - LastFailure(before).value >= recovery * 4 then 0
         else Streak(before, recovery)) + 1
      else Streak(before, recovery)
  }

  /** Failure `i` met the threshold. */
  predicate Trips(events: seq<Event>, threshold: int, recovery: Time, i: nat) {
    i < |events| && events[i].Failure? && Streak(events[..i + 1], recovery) >= threshold
  }

  /** The last failure that met the threshold, unless a success came after it. */
  function LastTrip(events: seq<Event>, threshold: int, recovery: Time): Option<Time> {
    if events == [] || events[|events| - 1].Success? then None
    else if events[|events| - 1].Failure? && Streak(events, recovery) >= threshold then Some(events[|events| - 1].time)
    else LastTrip(events[..|events| - 1], threshold, recovery)
  }

  ghost predicate Explains(k: Keys, events: seq<Event>, threshold: int, recovery: Time) {
    var trip, fail := LastTrip(events, threshold, recovery), LastFailure(events);
    var clock := if events == [] then 0 else events[|events| - 1].time;
    // The counter key.
    && (fail.None? ==> k.failures.None?)
    && (fail.Some? ==>
          k.failures == Some(Entry(Streak(events, recovery), Some(fail.value + recovery * 4))) && fail.value <= clock)
    // The state key: without a trip it does not read OPEN any more.
    && (trip.None? ==>
         k.state.None? || k.state.value.value == Closed
         || (events != [] && k.state.value.expiry.Some? && k.state.value.expiry.value <= clock))
    && (trip.Some? ==>
         && trip.value <= clock && k.openedAt == Some(Entry(trip.value, None)) && k.state.Some?
         && ((k.state.value == Entry(Open, Some(trip.value + recovery * 10)))
             || (k.state.value == Entry(HalfOpen, None) && clock - trip.value >= recovery)))
  }

  lemma {:induction false} AfterExplains(events: seq<Event>, threshold: int, recovery: Time)
    requires InOrder(events) && 0 < recovery
    ensures Explains(After(events, threshold, recovery), events, threshold, recovery)
  {
    if events != [] {
      var last := |events| - 1;
      var before := events[..last];
      AfterExplains(before, threshold, recovery);
      if before != [] {
        assert before[last - 1] == events[last - 1] && events[last - 1].time <= events[last].time;
      }
    }
  }

  // ---------- Main results ----------

  /** What the counter key reads at `now` is the number of failures since the last success
      or expiry. */
  lemma CounterCountsFailures(events: seq<Event>, threshold: int, recovery: Time, now: Time)
    requires InOrder(events) && 0 < recovery
    ensures var slot := After(events, threshold, recovery).failures;
      (if Live(slot, now) then slot.value.value else 0) == FailuresAt(events, recovery, now)
  {
    AfterExplains(events, threshold, recovery);
  }

  lemma SameTrips(events: seq<Event>, threshold: int, recovery: Time, i: nat)
    requires i < |events| - 1
    ensures Trips(events[..|events| - 1], threshold, recovery, i) <==> Trips(events, threshold, recovery, i)
    ensures NoSuccessFrom(events, i)
       <==> NoSuccessFrom(events[..|events| - 1], i) && !events[|events| - 1].Success?
  {
    var before := events[..|events| - 1];
    assert before[..i + 1] == events[..i + 1];
    assert forall k | i <= k < |before| :: before[k] == events[k];
  }

  lemma {:induction false} LastTripExists(events: seq<Event>, threshold: int, recovery: Time) returns (i: nat)
    requires LastTrip(events, threshold, recovery).Some?
    ensures Trips(events, threshold, recovery, i) && NoSuccessFrom(events, i)
    ensures events[i].time == LastTrip(events, threshold, recovery).value
  {
    var last: nat := |events| - 1;
    assert events[..last + 1] == events;
    if Trips(events, threshold, recovery, last) {
      i := last;
    } else {
      i := LastTripExists(events[..last], threshold, recovery);
      SameTrips(events, threshold, recovery, i);
    }
  }

  lemma {:induction false} LastTripIsLast(events: seq<Event>, threshold: int, recovery: Time, i: nat)
    requires InOrder(events) && Trips(events, threshold, recovery, i) && NoSuccessFrom(events, i)
    ensures var trip := LastTrip(events, threshold, recovery); trip.Some? && events[i].time <= trip.value
  {
    var last: nat := |events| - 1;
    assert events[..last + 1] == events;
    if i < last {
      SameTrips(events, threshold, recovery, i);
      LastTripIsLast(events[..last], threshold, recovery, i);
    }
  }

  /** The exact rule by which a call is rejected: a failure that met the threshold is less
      than the recovery time ago, and no success came after it. */
  lemma RejectsExactlyAfterATrip(events: seq<Event>, threshold: int, recovery: Time, now: Time)
    requires InOrder(events) && 0 < recovery && (events != [] ==> events[|events| - 1].time <= now)
    ensures Rejects(After(events, threshold, recovery), recovery, now)
      <==> exists i: nat ::
             Trips(events, threshold, recovery, i) && NoSuccessFrom(events, i) && now - events[i].time < recovery
  {
    AfterExplains(events, threshold, recovery);
    if LastTrip(events, threshold, recovery).Some? {
      var i := LastTripExists(events, threshold, recovery);
    }
    forall i: nat | Trips(events, threshold, recovery, i) && NoSuccessFrom(events, i)
      ensures LastTrip(events, threshold, recovery).Some?
      ensures events[i].time <= LastTrip(events, threshold, recovery).value
    {
      LastTripIsLast(events, threshold, recovery, i);
    }
  }

  /** What the state reads: after a failure that meets the threshold OPEN, for ten recovery times
      unless something else happens; after a question that finds it cooled HALF_OPEN; after a
      success CLOSED. A failure that meets the threshold opens it from every state. */
  lemma StateReads(k: Keys, threshold: int, recovery: Time, now: Time, t: Time)
    requires recovery > 0 && now <= t
    ensures GetState(Succeed(k, now), now) == Closed && Succeed(k, now).failures == None
    ensures Expire(Incr(k.failures, now), now, 4 * recovery).value >= threshold ==>
      && (GetState(Fail(k, threshold, recovery, now), t) == Open <==> t < now + 10 * recovery)
      && Fail(k, threshold, recovery, now).openedAt == Some(Entry(now, None))
    ensures Expire(Incr(k.failures, now), now, 4 * recovery).value < threshold ==>
      Fail(k, threshold, recovery, now) == k.(failures := Some(Expire(Incr(k.failures, now), now, 4 * recovery)))
    ensures GetState(k, now) == Open && !Rejects(k, recovery, now) ==> GetState(Ask(k, recovery, now), t) == HalfOpen
    ensures GetState(k, now) != Open || Rejects(k, recovery, now) ==> Ask(k, recovery, now) == k
  {
  }
}
