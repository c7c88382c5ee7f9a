/** The circuit breaker of the autonomous loop, kept in the memory of one process. */
module SreBreaker {
  import opened Text
  import opened KeyStore

  datatype Mode = Closed | Open | HalfOpen

  datatype Breaker = Breaker(failures: nat, mode: Mode, openedAt: Option<Time>)

  const FRESH := Breaker(0, Closed, None)

  /** Reading the state property moves OPEN to HALF_OPEN when the pause is over. */
  function Observe(b: Breaker, reset: Time, now: Time): Breaker {
    var openedAt := if b.openedAt.Some? then b.openedAt.value else 0;
    if b.mode == Open && now - openedAt > reset then b.(mode := HalfOpen) else b
  }

  function Succeed(b: Breaker): Breaker {
    b.(failures := 0, mode := Closed)
  }

  /** Only a CLOSED breaker opens: a failure while probing leaves it HALF_OPEN. */
  function Fail(b: Breaker, threshold: int, now: Time): Breaker {
    var failures := b.failures + 1;
    if failures >= threshold && b.mode == Closed then Breaker(failures, Open, Some(now)) else b.(failures := failures)
  }

  class CircuitBreaker {
    const threshold: int
    const resetTime: Time
    var failures: nat
    var mode: Mode
    var openedAt: Option<Time>

    function Value(): Breaker
      reads this
    {
      Breaker(failures, mode, openedAt)
    }

    constructor (threshold: int, resetTime: Time)
      ensures this.threshold == threshold && this.resetTime == resetTime && Value() == FRESH
    {
      this.threshold, this.resetTime := threshold, resetTime;
      failures, mode, openedAt := 0, Closed, None;
    }

    method State(now: Time) returns (m: Mode)
      modifies this
      ensures Value() == Observe(old(Value()), resetTime, now) && m == mode
    {
      if mode == Open {
        if now - (if openedAt.Some? then openedAt.value else 0) > resetTime {
          mode := HalfOpen;
        }
      }
      m := mode;
    }

    method RecordSuccess()
      modifies this
      ensures Value() == Succeed(old(Value()))
    {
      failures := 0;
      mode := Closed;
    }

    method RecordFailure(now: Time)
      modifies this
      ensures Value() == Fail(old(Value()), threshold, now)
    {
      failures := failures + 1;
      if failures >= threshold && mode == Closed {
        mode := Open;
        openedAt := Some(now);
      }
    }

    method IsOpen(now: Time) returns (open: bool)
      modifies this
      ensures Value() == Observe(old(Value()), resetTime, now)
      ensures open <==> Observe(old(Value()), resetTime, now).mode == Open
    {
      var m := State(now);
      open := m == Open;
    }
  }

  // ---------- Histories ----------

  /** What happens to the breaker, in time order. */
  datatype Event = Success(time: Time) | Failure(time: Time) | Probe(time: Time)

  predicate InOrder(events: seq<Event>) {
    forall i, j | 0 <= i < j < |events| :: events[i].time <= events[j].time
  }

  function Apply(b: Breaker, threshold: int, reset: Time, e: Event): Breaker {
    match e
    case Success(t) => Succeed(b)
    case Failure(t) => Fail(b, threshold, t)
    case Probe(t) => Observe(b, reset, t)
  }

  function After(events: seq<Event>, threshold: int, reset: Time): Breaker {
    if events == [] then FRESH
    else Apply(After(events[..|events| - 1], threshold, reset), threshold, reset, events[|events| - 1])
  }

  /** Failures since the last success. */
  function FailuresSince(events: seq<Event>): nat {
    if events == [] || events[|events| - 1].Success? then 0
    else FailuresSince(events[..|events| - 1]) + if events[|events| - 1].Failure? then 1 else 0
  }

  predicate NoSuccessFrom(events: seq<Event>, i: nat) {
    forall k | i <= k < |events| :: !events[k].Success?
  }

  /** Event `i` is the failure that tripped the breaker: the first, since the last success,
      at which the failures reached the threshold. */
  predicate TrippedBy(events: seq<Event>, threshold: int, i: nat) {
    && i < |events| && events[i].Failure? && NoSuccessFrom(events, i)
    && FailuresSince(events[..i + 1]) == if threshold > 1 then threshold else 1
  }

  /** What the breaker knows about its history. */
  ghost predicate Explains(b: Breaker, events: seq<Event>, threshold: int, reset: Time) {
    && b.failures == FailuresSince(events)
    && (b.mode == Closed ==> b.failures == 0 || b.failures < threshold)
    && (b.mode != Closed ==>
         && b.failures >= threshold && b.failures > 0 && b.openedAt.Some?
         && exists i: nat :: TrippedBy(events, threshold, i) && events[i].time == b.openedAt.value)
    && (b.mode == HalfOpen ==> events != [] && events[|events| - 1].time - b.openedAt.value > reset)
  }

  lemma {:induction false} AfterExplains(events: seq<Event>, threshold: int, reset: Time)
    requires InOrder(events)
    ensures Explains(After(events, threshold, reset), events, threshold, reset)
  {
    if events != [] {
      var last := |events| - 1;
      var before := events[..last];
      AfterExplains(before, threshold, reset);
      var b, c := After(before, threshold, reset), After(events, threshold, reset);
      if !events[last].Success? {
        if b.mode != Closed {
          var i: nat :| TrippedBy(before, threshold, i) && before[i].time == b.openedAt.value;
          assert events[..i + 1] == before[..i + 1];
          assert TrippedBy(events, threshold, i);
        } else if c.mode == Open {
          assert events[..last + 1] == events;
          assert TrippedBy(events, threshold, last);
        }
      }
    }
  }

  lemma {:induction false} FailuresGrow(events: seq<Event>, i: nat, j: nat)
    requires i < j < |events| && NoSuccessFrom(events, i) && events[j].Failure?
    ensures FailuresSince(events[..i + 1]) < FailuresSince(events[..j + 1])
  {
    assert events[..j + 1][..j] == events[..j];
    if j > i + 1 {
      FailuresUp(events, i, j - 1);
      assert events[..(j - 1) + 1] == events[..j];
    }
  }

  lemma {:induction false} FailuresUp(events: seq<Event>, i: nat, j: nat)
    requires i <= j < |events| && NoSuccessFrom(events, i)
    ensures FailuresSince(events[..i + 1]) <= FailuresSince(events[..j + 1])
  {
    if i < j {
      FailuresUp(events, i, j - 1);
      assert events[..j + 1][..j] == events[..(j - 1) + 1];
    }
  }

  /** At most one event has tripped the breaker. */
  lemma TripIsUnique(events: seq<Event>, threshold: int, i: nat, j: nat)
    requires TrippedBy(events, threshold, i) && TrippedBy(events, threshold, j)
    ensures i == j
  {
    if i < j {
      FailuresGrow(events, i, j);
    } else if j < i {
      FailuresGrow(events, j, i);
    }
  }

  // ---------- Main results ----------

  /** In every reachable state the counter is the number of failures since the last
      success, and a CLOSED breaker has fewer of them than the threshold. */
  lemma ClosedIsBelowThreshold(events: seq<Event>, threshold: int, reset: Time)
    requires InOrder(events)
    ensures var b := After(events, threshold, reset);
      b.failures == FailuresSince(events) && (b.mode == Closed && threshold > 0 ==> FailuresSince(events) < threshold)
  {
    AfterExplains(events, threshold, reset);
  }

  /** The exact rule by which a pass is skipped: some failure tripped the breaker, no
      success followed, and it is at most the reset time ago. Later failures do not
      matter, so once the reset time is over every pass is let through until a success,
      however many of them fail. */
  lemma SkippedExactlyDuringTheReset(events: seq<Event>, threshold: int, reset: Time, now: Time)
    requires InOrder(events) && (events != [] ==> events[|events| - 1].time <= now)
    ensures Observe(After(events, threshold, reset), reset, now).mode == Open
      <==> exists i: nat :: TrippedBy(events, threshold, i) && now - events[i].time <= reset
  {
    AfterExplains(events, threshold, reset);
    var b := After(events, threshold, reset);
    if i: nat :| TrippedBy(events, threshold, i) && now - events[i].time <= reset {
      FailuresUp(events, i, |events| - 1);
      assert events[..(|events| - 1) + 1] == events;
      assert b.mode != Closed;
      var j: nat :| TrippedBy(events, threshold, j) && events[j].time == b.openedAt.value;
      TripIsUnique(events, threshold, i, j);
    }
  }
}
