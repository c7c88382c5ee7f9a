/** Deduplication of incidents: the shared store and the in-memory fallback. */
module Dedup {
  import opened Text
  import opened KeyStore
  import opened Names

  function Ttl(key: string): (t: Time)
    ensures t > 0
  {
    DedupSecondsFor(key) * SECOND
  }

  /** The keys `sre:incident:<key>` of the shared store. */
  class StoreDedup {
    var keys: map<string, Entry<()>>

    constructor ()
      ensures keys == map[]
    {
      keys := map[];
    }

    method IsDuplicate(key: string, now: Time) returns (duplicate: bool)
      ensures duplicate <==> InStore(keys, key, now)
    {
      duplicate := Live(if key in keys then Some(keys[key]) else None, now);
    }

    method Mark(key: string, now: Time)
      modifies this
      ensures keys == MarkStore(old(keys), key, now, Ttl(key))
    {
      keys := keys[key := Expire(Entry((), None), now, Ttl(key))];
    }
  }

  /** The fallback keeps the time of the last mark and drops it when it is found too old. */
  class MemoryDedup {
    var cache: map<string, Time>

    constructor ()
      ensures cache == map[]
    {
      cache := map[];
    }

    method IsDuplicate(key: string, now: Time) returns (duplicate: bool)
      modifies this
      ensures duplicate <==> InMemory(old(cache), key, now)
      ensures cache == AskMemory(old(cache), key, now)
    {
      if key in cache && now - cache[key] < Ttl(key) {
        return true;
      }
      cache := cache - {key};
      return false;
    }

    method Mark(key: string, now: Time)
      modifies this
      ensures cache == old(cache)[key := now]
    {
      cache := cache[key := now];
    }
  }

  predicate InStore(keys: map<string, Entry<()>>, key: string, now: Time) {
    Live(if key in keys then Some(keys[key]) else None, now)
  }

  function MarkStore(keys: map<string, Entry<()>>, key: string, now: Time, ttl: Time): map<string, Entry<()>> {
    keys[key := Expire(Entry((), None), now, ttl)]
  }

  predicate InMemory(cache: map<string, Time>, key: string, now: Time) {
    key in cache && now - cache[key] < Ttl(key)
  }

  function AskMemory(cache: map<string, Time>, key: string, now: Time): map<string, Time> {
    if InMemory(cache, key, now) then cache else cache - {key}
  }

  /** Asking drops the entry of the incident when it is too old, and keeps it otherwise. */
  lemma OldEntryIsDropped(cache: map<string, Time>, key: string, now: Time)
    ensures key in AskMemory(cache, key, now) <==> InMemory(cache, key, now)
    ensures forall k | k in AskMemory(cache, key, now) :: k in cache && AskMemory(cache, key, now)[k] == cache[k]
    ensures forall k | k in cache && k != key :: k in AskMemory(cache, key, now)
  {
  }

  // ---------- Histories ----------

  datatype Event = Marked(key: string, time: Time) | Asked(key: string, time: Time)

  predicate InOrder(events: seq<Event>) {
    forall i, j | 0 <= i < j < |events| :: events[i].time <= events[j].time
  }

  function StoreAfter(events: seq<Event>): map<string, Entry<()>> {
    if events == [] then map[]
    else
      var before, last := StoreAfter(events[..|events| - 1]), events[|events| - 1];
      if last.Marked? then MarkStore(before, last.key, last.time, Ttl(last.key)) else before
  }

  function MemoryAfter(events: seq<Event>): map<string, Time> {
    if events == [] then map[]
    else
      var before, last := MemoryAfter(events[..|events| - 1]), events[|events| - 1];
      if last.Marked? then before[last.key := last.time] else AskMemory(before, last.key, last.time)
  }

  /** What both backends are for: the incident was marked, less than its time ago. */
  ghost predicate RecentlyMarked(events: seq<Event>, key: string, now: Time) {
    exists i | 0 <= i < |events| :: events[i] == Marked(key, events[i].time) && now - events[i].time < Ttl(key)
  }

  lemma RecentlyMarkedStep(events: seq<Event>, key: string, now: Time)
    requires events != []
    ensures RecentlyMarked(events, key, now) <==> (
      var last := events[|events| - 1];
      (last == Marked(key, last.time) && now - last.time < Ttl(key))
      || RecentlyMarked(events[..|events| - 1], key, now))
  {
    var front := events[..|events| - 1];
    if RecentlyMarked(front, key, now) {
      var i :| 0 <= i < |front| && front[i] == Marked(key, front[i].time) && now - front[i].time < Ttl(key);
      assert events[i] == Marked(key, events[i].time);
    }
  }

  /** The shared store answers "duplicate" exactly for the recently marked incidents. */
  lemma {:induction false} StoreMeetsSpec(events: seq<Event>, key: string, now: Time)
    requires InOrder(events) && (events != [] ==> events[|events| - 1].time <= now)
    ensures InStore(StoreAfter(events), key, now) <==> RecentlyMarked(events, key, now)
  {
    if events != [] {
      var front, last := events[..|events| - 1], events[|events| - 1];
      assert front == [] || front[|front| - 1].time <= last.time;
      StoreMeetsSpec(front, key, now);
      RecentlyMarkedStep(events, key, now);
      if last == Marked(key, last.time) && RecentlyMarked(front, key, now) {
        assert last.time <= now;
        var i :| 0 <= i < |front| && front[i] == Marked(key, front[i].time) && now - front[i].time < Ttl(key);
        assert events[i].time <= last.time;
      }
    }
  }

  /** So does the in-memory fallback: the two backends are interchangeable. */
  lemma {:induction false} MemoryMeetsSpec(events: seq<Event>, key: string, now: Time)
    requires InOrder(events) && (events != [] ==> events[|events| - 1].time <= now)
    ensures InMemory(MemoryAfter(events), key, now) <==> RecentlyMarked(events, key, now)
  {
    if events != [] {
      var front, last := events[..|events| - 1], events[|events| - 1];
      assert front == [] || front[|front| - 1].time <= last.time;
      MemoryMeetsSpec(front, key, now);
      RecentlyMarkedStep(events, key, now);
      if last == Marked(key, last.time) && RecentlyMarked(front, key, now) {
        var i :| 0 <= i < |front| && front[i] == Marked(key, front[i].time) && now - front[i].time < Ttl(key);
        assert events[i].time <= last.time;
      }
    }
  }
}
