/** Every answer of the limiter from the answers before it, without the table. */
module RateLimitAnswers {
  import opened Common
  import opened RateLimit
  import opened RateLimitTraces

  ghost predicate AllCalls(events: seq<Event>) {
    forall k :: 0 <= k < |events| ==> events[k].Call?
  }

  ghost predicate Rising(events: seq<Event>) {
    forall i, j :: 0 <= i < j < |events| ==> events[i].now <= events[j].now
  }

  lemma {:induction false} CallsRise(from: int, events: seq<Event>)
    requires Ordered(from, events)
    ensures AllCalls(Calls(events)) && Rising(Calls(events))
    ensures forall k :: 0 <= k < |Calls(events)| ==> from <= Calls(events)[k].now
    decreases |events|
  {
    if events != [] {
      CallsRise(events[0].now, events[1..]);
    }
  }

  /** The table after some calls. */
  function After(table: Table, calls: seq<Event>, window: int): Table
    requires AllCalls(calls)
    decreases |calls|
  {
    if calls == [] then table
    else After(AllowNext(table, calls[0].id, calls[0].limit, calls[0].now, window), calls[1..], window)
  }

  function AnswerTo(table: Table, call: Event, window: int): Served
    requires call.Call?
  {
    Served(call.id, call.now, AllowAnswer(table, call.id, call.limit, call.now, window))
  }

  lemma {:induction false} LogSnoc(table: Table, calls: seq<Event>, call: Event, window: int)
    requires AllCalls(calls) && call.Call?
    ensures Log(table, calls + [call], window)
         == Log(table, calls, window) + [AnswerTo(After(table, calls, window), call, window)]
    ensures After(table, calls + [call], window)
         == AllowNext(After(table, calls, window), call.id, call.limit, call.now, window)
    decreases |calls|
  {
    var all := calls + [call];
    if calls == [] {
      assert all[1..] == [];
    } else {
      assert all[0] == calls[0] && all[1..] == calls[1..] + [call];
      LogSnoc(AllowNext(table, calls[0].id, calls[0].limit, calls[0].now, window), calls[1..], call, window);
    }
  }

  lemma {:induction false} AdmittedSnoc(log: seq<Served>, s: Served, id: string, reset: int)
    ensures AdmittedInWindow(log + [s], id, reset)
         == AdmittedInWindow(log, id, reset)
            + (if s.id == id && s.decision.allowed && s.decision.reset == reset then 1 else 0)
    decreases |log|
  {
    var all := log + [s];
    if log == [] {
      assert all[1..] == [];
    } else {
      assert all[0] == log[0] && all[1..] == log[1..] + [s];
      AdmittedSnoc(log[1..], s, id, reset);
    }
  }

  lemma {:induction false} NoneInWindow(log: seq<Served>, id: string, reset: int)
    requires forall i :: 0 <= i < |log| && log[i].id == id ==> log[i].decision.reset != reset
    ensures AdmittedInWindow(log, id, reset) == 0
    decreases |log|
  {
    if log != [] {
      assert forall i :: 0 <= i < |log[1..]| ==> log[1..][i] == log[i + 1];
      NoneInWindow(log[1..], id, reset);
    }
  }

  /** The counter holds what was admitted in the window that began last; earlier windows of the
      identifier were over when it began. */
  ghost predicate CounterKnown(table: Table, log: seq<Served>, id: string, window: int, now: int) {
    if id in table then
      && table[id].start <= now
      && table[id].count == AdmittedInWindow(log, id, table[id].start + window)
      && (forall i :: 0 <= i < |log| && log[i].id == id ==>
            log[i].decision.reset == table[id].start + window || log[i].decision.reset <= table[id].start)
      && exists i :: 0 <= i < |log| && log[i].id == id && log[i].decision.reset == table[id].start + window
    else forall i :: 0 <= i < |log| ==> log[i].id != id
  }

  /** The answer to a call, from the answers so far: within a window that is not over, its end and
      its requests count on; otherwise a new one begins. */
  ghost predicate Follows(log: seq<Served>, call: Event, s: Served, window: int)
    requires call.Call?
  {
    var admitted := AdmittedInWindow(log, call.id, s.decision.reset);
    && s.id == call.id && s.now == call.now
    && (forall i :: 0 <= i < |log| && log[i].id == call.id && call.now < log[i].decision.reset ==>
          s.decision.reset == log[i].decision.reset)
    && ((forall i :: 0 <= i < |log| && log[i].id == call.id ==> log[i].decision.reset <= call.now) ==>
          s.decision.reset == call.now + window && admitted == 0)
    && (s.decision.allowed <==> admitted < call.limit)
    && s.decision.remaining == if admitted < call.limit then call.limit - admitted - 1 else 0
  }

  lemma {:induction false} AnswerFollows(table: Table, log: seq<Served>, call: Event, window: int, now: int)
    requires window > 0 && call.Call? && now <= call.now && CounterKnown(table, log, call.id, window, now)
    ensures Follows(log, call, AnswerTo(table, call, window), window)
  {
    if call.id !in table || call.now - table[call.id].start >= window {
      NoneInWindow(log, call.id, call.now + window);
    }
  }

  lemma {:induction false} OthersStayKnown(
    table: Table, log: seq<Served>, call: Event, id: string, window: int, now: int)
    requires call.Call? && now <= call.now && CounterKnown(table, log, id, window, now) && id != call.id
    ensures CounterKnown(AllowNext(table, call.id, call.limit, call.now, window),
                         log + [AnswerTo(table, call, window)], id, window, call.now)
  {
    var s := AnswerTo(table, call, window);
    if id in table {
      AdmittedSnoc(log, s, id, table[id].start + window);
      var i :| 0 <= i < |log| && log[i].id == id && log[i].decision.reset == table[id].start + window;
      assert (log + [s])[i] == log[i];
    }
  }

  lemma {:induction false} OwnBecomesKnown(table: Table, log: seq<Served>, call: Event, window: int, now: int)
    requires window > 0 && call.Call? && now <= call.now && CounterKnown(table, log, call.id, window, now)
    ensures CounterKnown(AllowNext(table, call.id, call.limit, call.now, window),
                         log + [AnswerTo(table, call, window)], call.id, window, call.now)
  {
    var s := AnswerTo(table, call, window);
    var w := Current(table, call.id, call.limit, call.now, window);
    AdmittedSnoc(log, s, call.id, w.start + window);
    if call.id !in table || call.now - table[call.id].start >= window {
      NoneInWindow(log, call.id, call.now + window);
    }
    assert (log + [s])[|log|] == s;
  }

  lemma {:induction false} CountersKnown(calls: seq<Event>, window: int, id: string)
    requires window > 0 && AllCalls(calls) && Rising(calls) && calls != []
    ensures CounterKnown(After(map[], calls, window), Log(map[], calls, window), id, window, calls[|calls| - 1].now)
    decreases |calls|
  {
    var init, last := calls[..|calls| - 1], calls[|calls| - 1];
    assert calls == init + [last];
    LogSnoc(map[], init, last, window);
    var table, log := After(map[], init, window), Log(map[], init, window);
    var now := if init == [] then last.now else init[|init| - 1].now;
    if init != [] {
      CountersKnown(init, window, id);
    }
    assert CounterKnown(table, log, id, window, now);
    if id == last.id {
      OwnBecomesKnown(table, log, last, window, now);
    } else {
      OthersStayKnown(table, log, last, id, window, now);
    }
  }

  lemma {:induction false} LogLength(table: Table, calls: seq<Event>, window: int)
    requires AllCalls(calls)
    ensures |Log(table, calls, window)| == |calls|
    decreases |calls|
  {
    if calls != [] {
      LogLength(AllowNext(table, calls[0].id, calls[0].limit, calls[0].now, window), calls[1..], window);
    }
  }

  lemma {:induction false} EachFollows(calls: seq<Event>, window: int, m: nat)
    requires window > 0 && AllCalls(calls) && Rising(calls) && m < |calls|
    ensures |Log(map[], calls, window)| == |calls|
    ensures Follows(Log(map[], calls, window)[..m], calls[m], Log(map[], calls, window)[m], window)
    decreases |calls|
  {
    var init, last := calls[..|calls| - 1], calls[|calls| - 1];
    assert calls == init + [last];
    LogLength(map[], calls, window);
    LogLength(map[], init, window);
    LogSnoc(map[], init, last, window);
    var log := Log(map[], init, window);
    if m < |init| {
      EachFollows(init, window, m);
      assert Log(map[], calls, window)[..m] == log[..m];
    } else {
      assert Log(map[], calls, window)[..m] == log;
      if init != [] {
        CountersKnown(init, window, last.id);
        AnswerFollows(After(map[], init, window), log, last, window, init[|init| - 1].now);
      } else {
        AnswerFollows(map[], [], last, window, last.now);
      }
    }
  }

  /** In every trace of calls, limit changes and sweeps: what remains is the limit minus the requests
      of the identifier that this window has admitted, the present one included; a window ends where
      the answers in it say, and the next one begins with the first call after that. */
  lemma {:induction false} AnswersMean(from: int, events: seq<Event>, window: int, m: nat)
    requires window > 0 && Ordered(from, events) && m < |Calls(events)|
    ensures |Log(map[], events, window)| == |Calls(events)| && Calls(events)[m].Call?
    ensures Follows(Log(map[], events, window)[..m], Calls(events)[m], Log(map[], events, window)[m], window)
  {
    CallsRise(from, events);
    SweepsAreUnobservable(map[], map[], from, events, window);
    EachFollows(Calls(events), window, m);
  }
}
