/** One key of the shared store: a value with an optional expiry. Times are microseconds;
    commands on one key are atomic. */
module KeyStore {
  import opened Text

  type Time = int

  const SECOND := 1_000_000

  datatype Entry<+V> = Entry(value: V, expiry: Option<Time>)

  /** A key of the store, absent when nothing was ever written or it was deleted. */
  type Slot<+V> = Option<Entry<V>>

  predicate Live<V>(slot: Slot<V>, now: Time) {
    slot.Some? && (slot.value.expiry.None? || now < slot.value.expiry.value)
  }

  /** `INCR`: an absent or expired key counts from zero and has no expiry; a live one
      keeps its expiry. */
  function Incr(slot: Slot<nat>, now: Time): Entry<nat> {
    if Live(slot, now) then slot.value.(value := slot.value.value + 1) else Entry(1, None)
  }

  /** `EXPIRE` and the `ex` option of `SET`. */
  function Expire<V>(entry: Entry<V>, now: Time, ttl: Time): Entry<V> {
    entry.(expiry := Some(now + ttl))
  }
}
