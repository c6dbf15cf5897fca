/** The fixed-window rate limiter: an in-memory table of counters, one per identifier,
    with a background sweep that drops old counters. Instants and the window length are
    integers (nanoseconds); the clock is passed in instead of being read. */
module RateLimit {
  import opened Common

  /** The value of one counter. */
  datatype Window = Window(count: nat, start: int, limit: int)

  datatype Decision = Decision(allowed: bool, remaining: int, reset: int)

  type Table = map<string, Window>

  // ---------- what one call does ----------

  /** A counter is renewed when it is missing or its window is over; otherwise only its
      limit changes and the requests it has already admitted stay counted. */
  function Current(table: Table, id: string, limit: int, now: int, window: int): Window {
    if id !in table || now - table[id].start >= window
    then Window(0, now, limit)
    else table[id].(limit := limit)
  }

  function Admit(w: Window): Window {
    if w.count >= w.limit then w else w.(count := w.count + 1)
  }

  function Answer(w: Window, window: int): Decision {
    if w.count >= w.limit
    then Decision(false, 0, w.start + window)
    else Decision(true, w.limit - (w.count + 1), w.start + window)
  }

  function AllowNext(table: Table, id: string, limit: int, now: int, window: int): Table {
    table[id := Admit(Current(table, id, limit, now, window))]
  }

  function AllowAnswer(table: Table, id: string, limit: int, now: int, window: int): Decision {
    Answer(Current(table, id, limit, now, window), window)
  }

  function Swept(table: Table, now: int, window: int): Table {
    map id | id in table && now - table[id].start < window * 2 :: table[id]
  }

  // ---------- the store ----------

  class RateLimitEntry {
    var count: nat
    var windowStart: int
    var limit: int

    constructor (windowStart: int, limit: int)
      ensures this.count == 0 && this.windowStart == windowStart && this.limit == limit
    {
      this.count := 0;
      this.windowStart := windowStart;
      this.limit := limit;
    }
  }

  class FixedWindowStore {
    var entries: map<string, RateLimitEntry>
    const window: int

    constructor (window: int)
      ensures Valid() && Contents() == map[]
      ensures this.window == window
    {
      this.entries := map[];
      this.window := window;
    }

    ghost predicate EntryIs(entry: RateLimitEntry, w: Window)
      reads entry
    {
      Window(entry.count, entry.windowStart, entry.limit) == w
    }

    /** No entry object serves two identifiers. */
    ghost predicate Valid()
      reads this
    {
      forall a, b :: a in entries && b in entries && a != b ==> entries[a] != entries[b]
    }

    ghost function Contents(): Table
      reads this, entries.Values
    {
      map id | id in entries ::
        Window(entries[id].count, entries[id].windowStart, entries[id].limit)
    }

    /** The counter in use: a new one, or the stored one with the given limit. */
    method CurrentEntry(identifier: string, limit: int, now: int) returns (entry: RateLimitEntry)
      requires Valid()
      modifies this`entries, entries.Values
      ensures Valid() && fresh(entries.Values - old(entries.Values))
      ensures identifier in entries && entries[identifier] == entry
      ensures var w := Current(old(Contents()), identifier, limit, now, window);
        Contents() == old(Contents())[identifier := w] && EntryIs(entry, w)
    {
      if identifier !in entries || now - entries[identifier].windowStart >= window {
        entry := new RateLimitEntry(now, limit);
        entries := entries[identifier := entry];
      } else {
        entry := entries[identifier];
        entry.limit := limit;
      }
    }

    method Allow(identifier: string, limit: int, now: int)
      returns (allowed: bool, remaining: int, resetTime: int)
      requires Valid()
      modifies this`entries, entries.Values
      ensures Valid() && fresh(entries.Values - old(entries.Values))
      ensures Contents() == AllowNext(old(Contents()), identifier, limit, now, window)
      ensures Decision(allowed, remaining, resetTime)
           == AllowAnswer(old(Contents()), identifier, limit, now, window)
    {
      var entry := CurrentEntry(identifier, limit, now);
      resetTime := entry.windowStart + window;
      if entry.count >= entry.limit {
        return false, 0, resetTime;
      }
      ghost var before := Contents();
      entry.count := entry.count + 1;
      assert Contents() == before[identifier := before[identifier].(count := entry.count)];
      remaining := entry.limit - entry.count;
      return true, remaining, resetTime;
    }

    method Cleanup(now: int)
      requires Valid()
      modifies this`entries
      ensures Valid() && entries.Values <= old(entries.Values)
      ensures Contents() == Swept(old(Contents()), now, window)
      ensures forall id :: id in entries <==>
        id in old(entries) && now < old(Contents())[id].start + 2 * window
    {
      var pending := entries.Keys;
      while pending != {}
        invariant pending <= old(entries).Keys
        invariant entries.Keys <= old(entries).Keys
        invariant forall id :: id in entries ==> entries[id] == old(entries)[id]
        invariant forall id :: id in pending ==> id in entries
        invariant forall id :: id in old(entries) && id !in pending ==>
          (id in entries <==> now - old(entries)[id].windowStart < window * 2)
        decreases pending
      {
        var key :| key in pending;
        if now - entries[key].windowStart >= window * 2 {
          entries := entries - {key};
        }
        pending := pending - {key};
      }
    }
  }
}
