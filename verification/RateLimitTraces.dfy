/** What the limiter guarantees over whole traces of calls, limit changes and sweeps. */
module RateLimitTraces {
  import opened Common
  import opened RateLimit

  datatype Event =
    | Call(id: string, limit: int, now: int)
    | Sweep(now: int)

  datatype Served = Served(id: string, now: int, decision: Decision)

  /** The answers given along a trace, one entry a call. */
  function Log(table: Table, events: seq<Event>, window: int): seq<Served>
    decreases |events|
  {
    if events == [] then []
    else match events[0]
      case Call(id, limit, now) =>
        [Served(id, now, AllowAnswer(table, id, limit, now, window))]
        + Log(AllowNext(table, id, limit, now, window), events[1..], window)
      case Sweep(now) =>
        Log(Swept(table, now, window), events[1..], window)
  }

  ghost predicate Ordered(from: int, events: seq<Event>)
    decreases |events|
  {
    events == [] || (from <= events[0].now && Ordered(events[0].now, events[1..]))
  }

  /** Every call for this identifier asks for at most `cap`. */
  ghost predicate LimitsAtMost(events: seq<Event>, id: string, cap: int) {
    forall k :: 0 <= k < |events| ==>
      (events[k].Call? && events[k].id == id ==> events[k].limit <= cap)
  }

  /** Every call for this identifier may be admitted at least once a window. */
  ghost predicate LimitsPositive(events: seq<Event>, id: string) {
    forall k :: 0 <= k < |events| ==>
      (events[k].Call? && events[k].id == id ==> events[k].limit >= 1)
  }

  function AdmittedBetween(log: seq<Served>, id: string, lo: int, hi: int): nat {
    if log == [] then 0
    else (if log[0].id == id && log[0].decision.allowed && lo <= log[0].now <= hi then 1 else 0)
         + AdmittedBetween(log[1..], id, lo, hi)
  }

  /** A window is identified by the reset time that its answers carry. */
  function AdmittedInWindow(log: seq<Served>, id: string, reset: int): nat {
    if log == [] then 0
    else (if log[0].id == id && log[0].decision.allowed && log[0].decision.reset == reset then 1 else 0)
         + AdmittedInWindow(log[1..], id, reset)
  }

  function Calls(events: seq<Event>): seq<Event> {
    if events == [] then []
    else if events[0].Call? then [events[0]] + Calls(events[1..])
    else Calls(events[1..])
  }

  // ---------- at most `cap` in one window ----------

  function Left(cap: nat, count: nat): nat {
    if count <= cap then cap - count else 0
  }

  function WindowRoom(table: Table, id: string, reset: int, cap: nat, from: int, window: int): nat {
    if id in table && table[id].start + window == reset then Left(cap, table[id].count)
    else if from + window > reset then 0
    else cap
  }

  lemma {:induction false} WindowRoomSuffices(
    table: Table, from: int, events: seq<Event>, window: int, id: string, reset: int, cap: nat)
    requires window > 0 && Ordered(from, events) && LimitsAtMost(events, id, cap)
    requires id in table ==> table[id].start <= from
    ensures AdmittedInWindow(Log(table, events, window), id, reset)
         <= WindowRoom(table, id, reset, cap, from, window)
    decreases |events|
  {
    if events != [] {
      var rest := events[1..];
      assert LimitsAtMost(rest, id, cap) by {
        forall k | 0 <= k < |rest| ensures rest[k] == events[k + 1] {}
      }
      match events[0]
      case Call(i, limit, now) =>
        var log := Log(table, events, window);
        var next := AllowNext(table, i, limit, now, window);
        assert log[1..] == Log(next, rest, window);
        WindowRoomSuffices(next, now, rest, window, id, reset, cap);
      case Sweep(now) =>
        WindowRoomSuffices(Swept(table, now, window), now, rest, window, id, reset, cap);
    }
  }

  /** One window never admits more than the largest limit asked for, even when the limit
      changes inside the window. */
  lemma {:induction false} OneWindowBound(
    from: int, events: seq<Event>, window: int, id: string, reset: int, cap: nat)
    requires window > 0 && Ordered(from, events) && LimitsAtMost(events, id, cap)
    ensures AdmittedInWindow(Log(map[], events, window), id, reset) <= cap
  {
    WindowRoomSuffices(map[], from, events, window, id, reset, cap);
  }

  // ---------- at most twice `cap` in any interval of one window's length ----------

  function AdmittedNow(table: Table, call: Event, window: int, id: string, lo: int, hi: int): nat
    requires call.Call?
  {
    if call.id == id && AllowAnswer(table, id, call.limit, call.now, window).allowed && lo <= call.now <= hi
    then 1 else 0
  }

  lemma {:induction false} CallCounts(
    table: Table, events: seq<Event>, window: int, id: string, lo: int, hi: int)
    requires events != [] && events[0].Call?
    ensures AdmittedBetween(Log(table, events, window), id, lo, hi)
         == AdmittedNow(table, events[0], window, id, lo, hi)
            + AdmittedBetween(
                Log(AllowNext(table, events[0].id, events[0].limit, events[0].now, window), events[1..], window),
                id, lo, hi)
  {
    var next := AllowNext(table, events[0].id, events[0].limit, events[0].now, window);
    assert Log(table, events, window)[1..] == Log(next, events[1..], window);
  }

  lemma {:induction false} NothingAfter(
    table: Table, from: int, events: seq<Event>, window: int, id: string, lo: int, hi: int)
    requires Ordered(from, events) && hi < from
    ensures AdmittedBetween(Log(table, events, window), id, lo, hi) == 0
    decreases |events|
  {
    if events != [] {
      match events[0]
      case Call(i, limit, now) =>
        var next := AllowNext(table, i, limit, now, window);
        assert Log(table, events, window)[1..] == Log(next, events[1..], window);
        NothingAfter(next, now, events[1..], window, id, lo, hi);
      case Sweep(now) =>
        NothingAfter(Swept(table, now, window), now, events[1..], window, id, lo, hi);
    }
  }

  function IntervalRoom(
    table: Table, id: string, lo: int, hi: int, cap: nat, window: int, unopened: nat): nat
  {
    if id !in table || table[id].start + window <= lo then unopened
    else if hi < table[id].start + window then Left(cap, table[id].count)
    else Left(cap, table[id].count) + cap
  }

  /** An admitted request uses up room. */
  lemma {:induction false} RoomAfterCall(
    table: Table, call: Event, window: int, id: string, lo: int, hi: int, cap: nat, unopened: nat)
    requires window > 0 && hi - lo <= window && cap > 0 && call.Call? && call.now <= hi
    requires call.id == id ==> call.limit <= cap
    requires id in table ==> table[id].start <= call.now
    requires unopened == 2 * cap
      || (unopened == 2 * cap - 1 && hi - lo < window && (call.id == id ==> call.limit >= 1))
    ensures AdmittedNow(table, call, window, id, lo, hi)
            + IntervalRoom(AllowNext(table, call.id, call.limit, call.now, window), id, lo, hi, cap, window, unopened)
         <= IntervalRoom(table, id, lo, hi, cap, window, unopened)
  {
  }

  lemma {:induction false} IntervalRoomSuffices(
    table: Table, from: int, events: seq<Event>, window: int, id: string, lo: int, hi: int, cap: nat,
    unopened: nat)
    requires window > 0 && hi - lo <= window && cap > 0
    requires Ordered(from, events) && LimitsAtMost(events, id, cap)
    requires id in table ==> table[id].start <= from
    requires unopened == 2 * cap
      || (unopened == 2 * cap - 1 && hi - lo < window && LimitsPositive(events, id))
    ensures AdmittedBetween(Log(table, events, window), id, lo, hi)
         <= IntervalRoom(table, id, lo, hi, cap, window, unopened)
    decreases |events|
  {
    if events != [] {
      var rest := events[1..];
      var now := events[0].now;
      assert LimitsAtMost(rest, id, cap) by {
        forall k | 0 <= k < |rest| ensures rest[k] == events[k + 1] {}
      }
      assert LimitsPositive(events, id) ==> LimitsPositive(rest, id) by {
        forall k | 0 <= k < |rest| ensures rest[k] == events[k + 1] {}
      }
      if hi < now {
        assert Ordered(now, events);
        NothingAfter(table, now, events, window, id, lo, hi);
      } else if events[0].Call? {
        CallCounts(table, events, window, id, lo, hi);
        RoomAfterCall(table, events[0], window, id, lo, hi, cap, unopened);
        var next := AllowNext(table, events[0].id, events[0].limit, now, window);
        IntervalRoomSuffices(next, now, rest, window, id, lo, hi, cap, unopened);
      } else {
        IntervalRoomSuffices(Swept(table, now, window), now, rest, window, id, lo, hi, cap, unopened);
      }
    }
  }

  lemma {:induction false} NothingWithoutLimit(
    table: Table, events: seq<Event>, window: int, id: string, lo: int, hi: int)
    requires LimitsAtMost(events, id, 0)
    ensures AdmittedBetween(Log(table, events, window), id, lo, hi) == 0
    decreases |events|
  {
    if events != [] {
      var rest := events[1..];
      assert LimitsAtMost(rest, id, 0) by {
        forall k | 0 <= k < |rest| ensures rest[k] == events[k + 1] {}
      }
      match events[0]
      case Call(i, limit, now) =>
        var next := AllowNext(table, i, limit, now, window);
        assert Log(table, events, window)[1..] == Log(next, rest, window);
        NothingWithoutLimit(next, rest, window, id, lo, hi);
      case Sweep(now) =>
        NothingWithoutLimit(Swept(table, now, window), rest, window, id, lo, hi);
    }
  }

  /** Any closed interval of a window's length admits at most 2 * cap requests. A shorter one
      (so any half-open one) admits at most 2 * cap - 1, because the request that opened an
      older window lies before it; that needs every limit to be positive, since a rejected
      request opens a window too. */
  lemma {:induction false} IntervalBound(
    from: int, events: seq<Event>, window: int, id: string, lo: int, hi: int, cap: nat)
    requires window > 0 && hi - lo <= window
    requires Ordered(from, events) && LimitsAtMost(events, id, cap)
    ensures AdmittedBetween(Log(map[], events, window), id, lo, hi) <= 2 * cap
    ensures hi - lo < window && cap > 0 && LimitsPositive(events, id) ==>
      AdmittedBetween(Log(map[], events, window), id, lo, hi) <= 2 * cap - 1
  {
    if cap == 0 {
      NothingWithoutLimit(map[], events, window, id, lo, hi);
    } else {
      IntervalRoomSuffices(map[], from, events, window, id, lo, hi, cap, 2 * cap);
      if hi - lo < window && LimitsPositive(events, id) {
        IntervalRoomSuffices(map[], from, events, window, id, lo, hi, cap, 2 * cap - 1);
      }
    }
  }

  // ---------- both bounds are reached ----------

  function Repeat(id: string, limit: int, now: int, times: nat): seq<Event> {
    if times == 0 then [] else [Call(id, limit, now)] + Repeat(id, limit, now, times - 1)
  }

  /** The table after some more requests were admitted in the current window. */
  function Counted(table: Table, id: string, cap: nat, times: nat): Table
    requires id in table
  {
    if times == 0 then table else table[id := Window(table[id].count + times, table[id].start, cap)]
  }

  lemma {:induction false} OneMoreAdmitted(
    table: Table, id: string, cap: nat, now: int, times: nat, window: int, lo: int, hi: int)
    requires lo <= now <= hi && id in table && table[id].start <= now < table[id].start + window
    requires times > 0 && table[id].count + times <= cap
    ensures AdmittedNow(table, Call(id, cap, now), window, id, lo, hi) == 1
    ensures var next := AllowNext(table, id, cap, now, window);
      && id in next && next[id] == Window(table[id].count + 1, table[id].start, cap)
      && Counted(next, id, cap, times - 1) == Counted(table, id, cap, times)
  {
  }

  lemma {:induction false} RepeatAdmitsAll(
    table: Table, id: string, cap: nat, now: int, times: nat, after: seq<Event>,
    window: int, lo: int, hi: int)
    requires window > 0 && lo <= now <= hi
    requires id in table && table[id].start <= now < table[id].start + window
    requires table[id].count + times <= cap
    ensures AdmittedBetween(Log(table, Repeat(id, cap, now, times) + after, window), id, lo, hi)
         == times + AdmittedBetween(Log(Counted(table, id, cap, times), after, window), id, lo, hi)
    decreases times
  {
    if times == 0 {
      assert Repeat(id, cap, now, 0) + after == after;
    } else {
      var events := Repeat(id, cap, now, times) + after;
      var rest := Repeat(id, cap, now, times - 1) + after;
      assert events[0] == Call(id, cap, now) && events[1..] == rest;
      CallCounts(table, events, window, id, lo, hi);
      OneMoreAdmitted(table, id, cap, now, times, window, lo, hi);
      RepeatAdmitsAll(AllowNext(table, id, cap, now, window), id, cap, now, times - 1, after, window, lo, hi);
    }
  }

  lemma {:induction false} FirstAdmitted(
    table: Table, id: string, cap: nat, now: int, window: int, lo: int, hi: int)
    requires lo <= now <= hi && cap > 0 && (id in table ==> now - table[id].start >= window)
    ensures AdmittedNow(table, Call(id, cap, now), window, id, lo, hi) == 1
    ensures var next := AllowNext(table, id, cap, now, window);
      next == table[id := Window(1, now, cap)] && Counted(next, id, cap, cap - 1) == table[id := Window(cap, now, cap)]
  {
  }

  lemma {:induction false} BurstAdmitsAll(
    table: Table, id: string, cap: nat, now: int, after: seq<Event>, window: int, lo: int, hi: int)
    requires window > 0 && lo <= now <= hi && cap > 0
    requires id in table ==> now - table[id].start >= window
    ensures AdmittedBetween(Log(table, Repeat(id, cap, now, cap) + after, window), id, lo, hi)
         == cap + AdmittedBetween(Log(table[id := Window(cap, now, cap)], after, window), id, lo, hi)
  {
    var events := Repeat(id, cap, now, cap) + after;
    var rest := Repeat(id, cap, now, cap - 1) + after;
    assert events[0] == Call(id, cap, now) && events[1..] == rest;
    CallCounts(table, events, window, id, lo, hi);
    FirstAdmitted(table, id, cap, now, window, lo, hi);
    RepeatAdmitsAll(AllowNext(table, id, cap, now, window), id, cap, now, cap - 1, after, window, lo, hi);
  }

  /** Two full bursts, one at each end of an interval of exactly a window's length. */
  lemma {:induction false} IntervalBoundIsReached(id: string, cap: nat, start: int, window: int)
    requires window > 0 && cap > 0
    ensures AdmittedBetween(
              Log(map[], Repeat(id, cap, start, cap) + Repeat(id, cap, start + window, cap), window),
              id, start, start + window)
         == 2 * cap
  {
    var second := Repeat(id, cap, start + window, cap);
    var full: Table := map[];
    BurstAdmitsAll(full, id, cap, start, second, window, start, start + window);
    full := full[id := Window(cap, start, cap)];
    assert second + [] == second;
    BurstAdmitsAll(full, id, cap, start + window, [], window, start, start + window);
  }

  /** Without positive limits the shorter interval can reach 2 * cap: a rejected request
      opens the older window. */
  lemma {:induction false} RejectedRequestOpensWindow()
    ensures AdmittedBetween(
              Log(map[], [Call("u", 0, 0), Call("u", 1, 9), Call("u", 1, 10)], 10), "u", 1, 10) == 2
  {
    var events := [Call("u", 0, 0), Call("u", 1, 9), Call("u", 1, 10)];
    var t1 := AllowNext(map[], "u", 0, 0, 10);
    var t2 := AllowNext(t1, "u", 1, 9, 10);
    assert events[1..][1..] == [Call("u", 1, 10)];
    var log := Log(map[], events, 10);
    assert log[1..] == Log(t1, events[1..], 10);
    assert log[1..][1..] == Log(t2, [Call("u", 1, 10)], 10);
    assert [Call("u", 1, 10)][1..] == [];
  }

  // ---------- sweeping is unobservable ----------

  /** The swept table lacks only counters that the next call would renew anyway. */
  ghost predicate SameUpToExpired(swept: Table, full: Table, now: int, window: int) {
    && swept.Keys <= full.Keys
    && (forall id :: id in swept ==> swept[id] == full[id])
    && (forall id :: id in full && id !in swept ==> now - full[id].start >= window)
  }

  /** A store that sweeps at arbitrary moments gives the same answers, remaining counts and
      reset times as one that never sweeps. */
  lemma {:induction false} SweepsAreUnobservable(
    swept: Table, full: Table, from: int, events: seq<Event>, window: int)
    requires window >= 0 && Ordered(from, events)
    requires SameUpToExpired(swept, full, from, window)
    ensures Log(swept, events, window) == Log(full, Calls(events), window)
    decreases |events|
  {
    if events != [] {
      match events[0]
      case Call(id, limit, now) =>
        var calls := Calls(events);
        assert calls[0] == events[0] && calls[1..] == Calls(events[1..]);
        SweepsAreUnobservable(AllowNext(swept, id, limit, now, window),
                              AllowNext(full, id, limit, now, window), now, events[1..], window);
      case Sweep(now) =>
        SweepsAreUnobservable(Swept(swept, now, window), full, now, events[1..], window);
    }
  }
}
