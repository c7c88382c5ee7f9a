/** The fixed-window rate limiter: the window starts with the first request and is not
    extended by later ones. */
module RateLimiter {
  import opened Text
  import opened KeyStore

  /** The counter after one more request. */
  function Hit(slot: Slot<nat>, now: Time, window: Time): Entry<nat> {
    var entry := Incr(slot, now);
    if entry.value == 1 then Expire(entry, now, window) else entry
  }

  class RateLimiter {
    const limit: nat
    const window: Time
    var counters: map<string, Entry<nat>>

    constructor (limit: nat, window: Time)
      ensures this.limit == limit && this.window == window && counters == map[]
    {
      this.limit, this.window, counters := limit, window, map[];
    }

    function Counter(user: string): Slot<nat>
      reads this
    {
      if user in counters then Some(counters[user]) else None
    }

    /** Counts the request and admits it within the limit. */
    method CheckRateLimit(user: string, now: Time) returns (admitted: bool)
      modifies this
      ensures counters == old(counters)[user := Hit(old(Counter(user)), now, window)]
      ensures admitted <==> Hit(old(Counter(user)), now, window).value <= limit
    {
      var entry := Incr(Counter(user), now);
      var count := entry.value;
      if count == 1 {
        entry := Expire(entry, now, window);
      }
      counters := counters[user := entry];
      admitted := count <= limit;
    }
  }

  // ---------- Runs: the requests of one user ----------

  predicate InOrder(times: seq<Time>) {
    forall i, j | 0 <= i < j < |times| :: times[i] <= times[j]
  }

  /** The counter after the first `i` requests. */
  function After(times: seq<Time>, window: Time, i: nat): Slot<nat>
    requires i <= |times|
  {
    if i == 0 then None else Some(Hit(After(times, window, i - 1), times[i - 1], window))
  }

  predicate Admitted(times: seq<Time>, limit: nat, window: Time, i: nat)
    requires i < |times|
  {
    After(times, window, i + 1).value.value <= limit
  }

  /** How many of the first `i` requests were admitted at a time in `[from, to)`. */
  function AdmittedIn(times: seq<Time>, limit: nat, window: Time, from: Time, to: Time, i: nat): nat
    requires i <= |times|
  {
    if i == 0 then 0
    else
      AdmittedIn(times, limit, window, from, to, i - 1)
      + if from <= times[i - 1] < to && Admitted(times, limit, window, i - 1) then 1 else 0
  }

  function Min(a: int, b: int): int { if a < b then a else b }

  /** Accounting of an interval of one window's length: what the key's present lifetime
      and the one before it can have contributed. */
  ghost predicate Account(slot: Slot<nat>, limit: nat, window: Time, from: Time, admitted: nat) {
    if slot.None? then admitted == 0
    else
      && slot.value.value >= 1 && slot.value.expiry.Some?
      && var start := slot.value.expiry.value - window;
         var mine := Min(slot.value.value, limit);
         && (start + window <= from ==> admitted == 0)
         && (start < from ==> admitted <= mine - 1)
         && (start == from ==> admitted <= mine)
         && (from < start < from + window ==> admitted <= limit - 1 + mine)
         && (from + window <= start ==> admitted <= 2 * limit - 1)
  }

  lemma {:induction false} AccountHolds(times: seq<Time>, limit: nat, window: Time, from: Time, i: nat)
    requires InOrder(times) && 0 < limit && 0 < window && i <= |times|
    ensures Account(
      After(times, window, i), limit, window, from, AdmittedIn(times, limit, window, from, from + window, i))
    ensures i > 0 ==>
      var s := After(times, window, i); s.value.expiry.value - window <= times[i - 1] < s.value.expiry.value
  {
    if i > 0 {
      AccountHolds(times, limit, window, from, i - 1);
      if i > 1 {
        assert times[i - 2] <= times[i - 1];
      }
    }
  }

  /** In every half-open interval of one window's length at most 2 x limit - 1 requests
      are admitted. */
  lemma AtMostTwiceTheLimit(times: seq<Time>, limit: nat, window: Time, from: Time)
    requires InOrder(times) && 0 < window
    ensures AdmittedIn(times, limit, window, from, from + window, |times|) <= if limit == 0 then 0 else 2 * limit - 1
  {
    if limit == 0 {
      NoneAdmitted(times, window, from, |times|);
    } else {
      AccountHolds(times, limit, window, from, |times|);
    }
  }

  lemma {:induction false} NoneAdmitted(times: seq<Time>, window: Time, from: Time, i: nat)
    requires i <= |times|
    ensures AdmittedIn(times, 0, window, from, from + window, i) == 0
    ensures i > 0 ==> After(times, window, i).value.value >= 1
  {
    if i > 0 {
      NoneAdmitted(times, window, from, i - 1);
    }
  }

  /** The requests `i..j` fall into one lifetime of the key: none of them starts a new one. */
  predicate OneLifetime(times: seq<Time>, window: Time, i: nat, j: nat)
    requires i < j <= |times|
  {
    forall k | i + 1 < k <= j :: After(times, window, k).value.value != 1
  }

  /** Per lifetime of the key at most `limit` requests are admitted: the first ones. */
  lemma {:induction false} AtMostLimitPerLifetime(times: seq<Time>, limit: nat, window: Time, i: nat, j: nat)
    requires InOrder(times) && i < j <= |times|
    requires After(times, window, i + 1).value.value == 1 && OneLifetime(times, window, i, j)
    ensures After(times, window, j).value.value == j - i
    ensures forall k | i <= k < j :: Admitted(times, limit, window, k) <==> k - i < limit
  {
    if j > i + 1 {
      AtMostLimitPerLifetime(times, limit, window, i, j - 1);
    }
  }

  // ---------- The bound is reached ----------

  /** One request, `limit - 1` just before the key expires, `limit` when it has. */
  function Burst(limit: nat, window: Time): seq<Time>
    requires 0 < limit
  {
    seq(2 * limit, i => if i == 0 then 0 else if i < limit then window - 1 else window)
  }

  lemma {:induction false} BurstState(limit: nat, window: Time, i: nat)
    requires 0 < limit && 1 < window && 0 < i <= 2 * limit
    ensures var times := Burst(limit, window);
      && After(times, window, i)
           == Some(if i <= limit then Entry(i, Some(window)) else Entry(i - limit, Some(2 * window)))
      && AdmittedIn(times, limit, window, window - 1, 2 * window - 1, i) == i - 1
  {
    var times := Burst(limit, window);
    if i > 1 {
      BurstState(limit, window, i - 1);
    } else {
      assert AdmittedIn(times, limit, window, window - 1, 2 * window - 1, 0) == 0;
    }
  }

  lemma BoundIsReached(limit: nat, window: Time)
    requires 0 < limit && 1 < window
    ensures InOrder(Burst(limit, window)) && |Burst(limit, window)| == 2 * limit
    ensures AdmittedIn(Burst(limit, window), limit, window, window - 1, (window - 1) + window, 2 * limit)
         == 2 * limit - 1
  {
    BurstState(limit, window, 2 * limit);
  }
}
