/** A whole recalculation run: paging over the players in ascending order of their IDs. */
module RecalculationRun {
  import opened Common
  import opened Sequences
  import opened SlotDiff
  import opened RecalculationMaster
  import opened Recalculation
  import opened RecalculationFixpoint

  const PAGE_SIZE: nat := 100

  datatype Key = Key(id: int, collectedAt: Option<int>)

  datatype Row = Row(collectedAt: Option<int>, lastPlayedAt: Option<int>, player: Player)

  datatype Lookup = ReadFails | Gone | Found(row: Row)

  /** What the run meets outside: which players are due when a page is read, the page read, what
      the k-th player's row holds when it is locked, whether the update is committed, and when
      the run is cancelled. */
  datatype World = World(
    due: nat -> set<int>,
    page: (nat, int) -> Option<seq<Key>>,
    lookup: nat -> Lookup,
    commits: nat -> bool,
    cancelledBeforePage: nat -> bool,
    cancelledBeforePlayer: nat -> bool)

  /** An ascending page above the given ID, complete up to the page size. */
  ghost predicate IsPage(keys: seq<Key>, due: set<int>, after: int, upper: int) {
    && |keys| <= PAGE_SIZE
    && (forall i :: 0 <= i < |keys| ==> after < keys[i].id <= upper && keys[i].id in due)
    && (forall i, j :: 0 <= i < j < |keys| ==> keys[i].id < keys[j].id)
    && (forall id :: id in due && after < id <= upper ==>
          (exists i :: 0 <= i < |keys| && keys[i].id == id)
          || (|keys| == PAGE_SIZE && keys[|keys| - 1].id < id))
  }

  ghost predicate PagesRight(world: World, upper: int) {
    forall n: nat, after: int ::
      world.page(n, after).Some? ==> IsPage(world.page(n, after).value, world.due(n), after, upper)
  }

  datatype Mode = CurrentPreserved | CurrentBrokenRebuilt | LegacyRebuilt

  /** A saved player is stored with the update. */
  datatype Outcome = Deleted | Conflict | Failed | Saved(mode: Mode, slotsUnchanged: bool, update: Update)

  predicate IsCurrent(p: Prepared, lastPlayedAt: Option<int>) {
    lastPlayedAt.Some? && lastPlayedAt.value >= VersionStartedAt(p.versionReleasedAt)
  }

  ghost function OutcomeOf(services: Services, p: Prepared, key: Key, lookup: Lookup, commits: bool): Outcome {
    match lookup
    case ReadFails => Failed
    case Gone => Deleted
    case Found(row) =>
      if row.collectedAt != key.collectedAt then Conflict
      else
        var current := IsCurrent(p, row.lastPlayedAt);
        var (update, broken) := UpdateOf(services, p, row.player, current);
        if update.Err? || !commits then Failed
        else
          Saved(
            if broken then CurrentBrokenRebuilt else if current then CurrentPreserved else LegacyRebuilt,
            (!current || broken) && update.value.diff == Diff([], []),
            update.value)
  }

  datatype Counters = Counters(
    processed: nat, success: nat, currentPreserved: nat, currentBrokenRebuilt: nat, legacyRebuilt: nat,
    slotsUnchanged: nat, conflictSkipped: nat, deletedSkipped: nat, failed: nat, lastPlayerId: int)

  const ZERO: Counters := Counters(0, 0, 0, 0, 0, 0, 0, 0, 0, 0)

  datatype Step = Step(key: Key, outcome: Outcome)

  function Times(log: seq<Step>, counts: Outcome -> bool): nat {
    if log == [] then 0
    else Times(log[..|log| - 1], counts) + (if counts(log[|log| - 1].outcome) then 1 else 0)
  }

  /** The counters say how often each outcome occurred. */
  ghost predicate Tallied(log: seq<Step>, c: Counters) {
    && c.processed == |log|
    && c.success == Times(log, (o: Outcome) => o.Saved?)
    && c.currentPreserved == Times(log, (o: Outcome) => o.Saved? && o.mode == CurrentPreserved)
    && c.currentBrokenRebuilt == Times(log, (o: Outcome) => o.Saved? && o.mode == CurrentBrokenRebuilt)
    && c.legacyRebuilt == Times(log, (o: Outcome) => o.Saved? && o.mode == LegacyRebuilt)
    && c.slotsUnchanged == Times(log, (o: Outcome) => o.Saved? && o.slotsUnchanged)
    && c.conflictSkipped == Times(log, (o: Outcome) => o == Conflict)
    && c.deletedSkipped == Times(log, (o: Outcome) => o == Deleted)
    && c.failed == Times(log, (o: Outcome) => o == Failed)
    && c.lastPlayerId == (if log == [] then 0 else log[|log| - 1].key.id)
  }

  /** The k-th player processed had the outcome its row leads to. */
  ghost predicate Faithful(world: World, services: Services, p: Prepared, log: seq<Step>) {
    forall k :: 0 <= k < |log| ==>
      log[k].outcome == OutcomeOf(services, p, log[k].key, world.lookup(k), world.commits(k))
  }

  ghost predicate Ascending(log: seq<Step>, upper: int) {
    && (forall i, j :: 0 <= i < j < |log| ==> log[i].key.id < log[j].key.id)
    && (forall i :: 0 <= i < |log| ==> 0 < log[i].key.id <= upper)
  }

  method ProcessPlayer(services: Services, p: Prepared, key: Key, lookup: Lookup, commits: bool)
    returns (outcome: Outcome)
    ensures outcome == OutcomeOf(services, p, key, lookup, commits)
  {
    match lookup {
      case ReadFails => return Failed;
      case Gone => return Deleted;
      case Found(row) =>
        if row.collectedAt != key.collectedAt {
          return Conflict;
        }
        var current := IsCurrent(p, row.lastPlayedAt);
        var update, broken := BuildUpdate(services, p, row.player, current);
        if update.Err? || !commits {
          return Failed;
        }
        var slotsUnchanged :=
          (!current || broken) && |update.value.diff.clears| == 0 && |update.value.diff.assignments| == 0;
        assert update.value.diff == Diff([], []) <==>
          |update.value.diff.clears| == 0 && |update.value.diff.assignments| == 0;
        return Saved(
          if broken then CurrentBrokenRebuilt else if current then CurrentPreserved else LegacyRebuilt,
          slotsUnchanged, update.value);
    }
  }

  /** Counts one more player. */
  method Count(c: Counters, key: Key, outcome: Outcome, ghost log: seq<Step>) returns (after: Counters)
    requires Tallied(log, c)
    ensures Tallied(log + [Step(key, outcome)], after)
  {
    assert (log + [Step(key, outcome)])[..|log|] == log;
    after := c.(processed := c.processed + 1, lastPlayerId := key.id);
    match outcome {
      case Failed => after := after.(failed := after.failed + 1);
      case Deleted => after := after.(deletedSkipped := after.deletedSkipped + 1);
      case Conflict => after := after.(conflictSkipped := after.conflictSkipped + 1);
      case Saved(mode, slotsUnchanged, _) =>
        after := after.(success := after.success + 1);
        match mode {
          case CurrentBrokenRebuilt => after := after.(currentBrokenRebuilt := after.currentBrokenRebuilt + 1);
          case CurrentPreserved => after := after.(currentPreserved := after.currentPreserved + 1);
          case LegacyRebuilt => after := after.(legacyRebuilt := after.legacyRebuilt + 1);
        }
        if slotsUnchanged {
          after := after.(slotsUnchanged := after.slotsUnchanged + 1);
        }
    }
  }

  ghost predicate Good(world: World, services: Services, p: Prepared, upper: int, log: seq<Step>, c: Counters) {
    Tallied(log, c) && Faithful(world, services, p, log) && Ascending(log, upper)
  }

  /** The log grew by the first n keys of the page. */
  ghost predicate Grown(log0: seq<Step>, log: seq<Step>, keys: seq<Key>, n: nat) {
    && n <= |keys| && |log| == |log0| + n && log[..|log0|] == log0
    && forall i :: 0 <= i < n ==> log[|log0| + i].key == keys[i]
  }

  /** The page starts above everything processed so far. */
  ghost predicate PageAbove(log: seq<Step>, keys: seq<Key>, after: int, upper: int) {
    && 0 <= after
    && (forall i :: 0 <= i < |log| ==> log[i].key.id <= after)
    && (forall i :: 0 <= i < |keys| ==> after < keys[i].id <= upper)
    && (forall i, j :: 0 <= i < j < |keys| ==> keys[i].id < keys[j].id)
  }

  lemma {:induction false} OneMoreAscending(
    upper: int, log0: seq<Step>, log: seq<Step>, keys: seq<Key>, i: nat, after: int, outcome: Outcome)
    requires Ascending(log, upper) && PageAbove(log0, keys, after, upper)
    requires Grown(log0, log, keys, i) && i < |keys|
    ensures Ascending(log + [Step(keys[i], outcome)], upper)
  {
    forall k | 0 <= k < |log| ensures log[k].key.id < keys[i].id {
      if k < |log0| {
        assert log[..|log0|][k] == log0[k];
      } else {
        assert log[|log0| + (k - |log0|)].key == keys[k - |log0|];
      }
    }
  }

  lemma {:induction false} OneMoreGrown(log0: seq<Step>, log: seq<Step>, keys: seq<Key>, i: nat, outcome: Outcome)
    requires Grown(log0, log, keys, i) && i < |keys|
    ensures Grown(log0, log + [Step(keys[i], outcome)], keys, i + 1)
  {
  }

  lemma {:induction false} OneMoreFaithful(
    world: World, services: Services, p: Prepared, log: seq<Step>, key: Key, outcome: Outcome)
    requires Faithful(world, services, p, log)
    requires outcome == OutcomeOf(services, p, key, world.lookup(|log|), world.commits(|log|))
    ensures Faithful(world, services, p, log + [Step(key, outcome)])
  {
  }

  method ProcessPage(
    world: World, services: Services, p: Prepared, upper: int, keys: seq<Key>, c0: Counters, ghost log0: seq<Step>,
    ghost after: int)
    returns (c: Counters, ghost log: seq<Step>, cancelled: bool)
    requires Good(world, services, p, upper, log0, c0) && PageAbove(log0, keys, after, upper)
    ensures Good(world, services, p, upper, log, c)
    ensures if cancelled then exists n :: Grown(log0, log, keys, n) else Grown(log0, log, keys, |keys|)
    ensures c0.processed <= c.processed <= c0.processed + |keys|
    ensures !cancelled ==> c.processed == c0.processed + |keys|
    ensures |keys| > 0 && !cancelled ==> c.lastPlayerId == keys[|keys| - 1].id
  {
    c, log := c0, log0;
    for i := 0 to |keys|
      invariant Good(world, services, p, upper, log, c)
      invariant Grown(log0, log, keys, i)
    {
      if world.cancelledBeforePlayer(c.processed) {
        return c, log, true;
      }
      var outcome := ProcessPlayer(services, p, keys[i], world.lookup(c.processed), world.commits(c.processed));
      var next := Count(c, keys[i], outcome, log);
      OneMoreAscending(upper, log0, log, keys, i, after, outcome);
      OneMoreFaithful(world, services, p, log, keys[i], outcome);
      OneMoreGrown(log0, log, keys, i, outcome);
      c, log := next, log + [Step(keys[i], outcome)];
    }
    return c, log, false;
  }

  datatype End = Finished | Cancelled | PageFailed | PlayersFailed(count: nat) | NotPrepared(error: PrepareError)

  /** The highest ID up to which the first pages reach. */
  function After(world: World, pages: nat): int
    decreases pages, 0
  {
    if pages == 0 then 0
    else
      match PageRead(world, pages - 1)
      case None => After(world, pages - 1)
      case Some(keys) => if keys == [] then After(world, pages - 1) else keys[|keys| - 1].id
  }

  /** The page that is read after so many pages. */
  function PageRead(world: World, pages: nat): Option<seq<Key>>
    decreases pages, 1
  {
    world.page(pages, After(world, pages))
  }

  /** The keys on the first pages, in their order. */
  function Listed(world: World, pages: nat): seq<Key> {
    if pages == 0 then []
    else
      Listed(world, pages - 1)
      + match PageRead(world, pages - 1)
        case None => []
        case Some(keys) => keys
  }

  function KeysOf(log: seq<Step>): seq<Key> { Map((step: Step) => step.key, log) }

  lemma {:induction false} GrownKeys(log0: seq<Step>, log: seq<Step>, keys: seq<Key>, n: nat)
    requires Grown(log0, log, keys, n)
    ensures KeysOf(log) == KeysOf(log0) + keys[..n]
  {
    forall i | 0 <= i < |log| ensures log[i].key == (KeysOf(log0) + keys[..n])[i] {
      if i < |log0| {
        assert log[..|log0|][i] == log0[i];
      } else {
        assert log[|log0| + (i - |log0|)].key == keys[i - |log0|];
      }
    }
  }

  /** Some of the keys of the page read last may not have been processed. */
  ghost predicate WithinPage(world: World, log: seq<Step>, pages: nat) {
    Listed(world, pages) <= KeysOf(log) <= Listed(world, pages + 1)
  }

  /** The page read last lists nobody. */
  ghost predicate PagesExhausted(world: World, pages: nat) {
    pages > 0 && PageRead(world, pages - 1) == Some([])
  }

  ghost predicate DueThroughout(world: World, pages: nat, id: int) {
    forall n: nat :: n < pages ==> id in world.due(n)
  }

  ghost predicate InLog(log: seq<Step>, id: int) {
    exists i :: 0 <= i < |log| && log[i].key.id == id
  }

  /** Whoever is due whenever a page is read has been processed up to the given ID. */
  ghost predicate Covered(world: World, pages: nat, log: seq<Step>, after: int) {
    forall id :: 0 < id <= after && DueThroughout(world, pages, id) ==> InLog(log, id)
  }

  function Reached(keys: seq<Key>, after: int, upper: int): int {
    if |keys| > 0 then keys[|keys| - 1].id else if after < upper then upper else after
  }

  lemma {:induction false} PageCovers(
    world: World, pages: nat, keys: seq<Key>, log0: seq<Step>, log: seq<Step>, after: int, upper: int)
    requires Covered(world, pages, log0, after) && IsPage(keys, world.due(pages), after, upper)
    requires Grown(log0, log, keys, |keys|) && PageAbove(log0, keys, after, upper)
    ensures Covered(world, pages + 1, log, Reached(keys, after, upper))
    ensures forall i :: 0 <= i < |log| ==> log[i].key.id <= Reached(keys, after, upper)
  {
    var reached := Reached(keys, after, upper);
    forall id | 0 < id <= reached && DueThroughout(world, pages + 1, id) ensures InLog(log, id) {
      if id <= after {
        assert DueThroughout(world, pages, id);
        var i :| 0 <= i < |log0| && log0[i].key.id == id;
        assert log[..|log0|][i] == log[i];
      } else {
        assert id in world.due(pages);
        var k :| 0 <= k < |keys| && keys[k].id == id;
        assert log[|log0| + k].key.id == id;
      }
    }
    forall i | 0 <= i < |log| ensures log[i].key.id <= reached {
      if i < |log0| {
        assert log[..|log0|][i] == log[i];
      } else {
        assert log[|log0| + (i - |log0|)].key == keys[i - |log0|];
      }
    }
  }

  /** Where the run stands between two pages: exactly the keys of the first pages have been
      processed, and the next page starts above the given ID. */
  ghost predicate BetweenPages(
    world: World, services: Services, p: Prepared, upper: int, log: seq<Step>, c: Counters, pages: nat, after: int)
  {
    && Good(world, services, p, upper, log, c) && Covered(world, pages, log, after)
    && KeysOf(log) == Listed(world, pages) && after == After(world, pages)
    && 0 <= after && forall i :: 0 <= i < |log| ==> log[i].key.id <= after
  }

  /** The keys processed are those listed on the pages read, each once and in their order; a
      cancelled run stops before a page or within it. */
  ghost predicate ListedInOrder(world: World, log: seq<Step>, pages: nat, end: End) {
    && WithinPage(world, log, pages)
    && (!end.Cancelled? ==> KeysOf(log) == Listed(world, pages))
    && (end.PageFailed? ==> PageRead(world, pages).None?)
    && (end.Finished? || end.PlayersFailed? ==> PagesExhausted(world, pages))
  }

  lemma {:induction false} PartOfPage(
    world: World, log0: seq<Step>, log: seq<Step>, pages: nat, keys: seq<Key>, n: nat)
    requires KeysOf(log0) == Listed(world, pages) && PageRead(world, pages) == Some(keys)
    requires Grown(log0, log, keys, n)
    ensures ListedInOrder(world, log, pages, Cancelled)
    ensures n == |keys| ==> KeysOf(log) == Listed(world, pages + 1)
  {
    GrownKeys(log0, log, keys, n);
    assert Listed(world, pages + 1) == Listed(world, pages) + keys;
    assert keys == keys[..n] + keys[n..];
    assert n == |keys| ==> keys[..n] == keys;
  }

  lemma {:induction false} BeforePage(world: World, log: seq<Step>, pages: nat)
    requires KeysOf(log) == Listed(world, pages)
    ensures ListedInOrder(world, log, pages, Cancelled)
    ensures PageRead(world, pages).None? ==> ListedInOrder(world, log, pages, PageFailed)
  {
    assert Listed(world, pages) <= Listed(world, pages + 1);
  }

  lemma {:induction false} NextPage(
    world: World, services: Services, p: Prepared, upper: int, log: seq<Step>, c: Counters, pages: nat, after: int,
    keys: seq<Key>)
    requires BetweenPages(world, services, p, upper, log, c, pages, after)
    requires PagesRight(world, upper) && world.page(pages, after) == Some(keys)
    ensures PageAbove(log, keys, after, upper) && (keys != [] ==> after < keys[|keys| - 1].id <= upper)
  {
    assert IsPage(keys, world.due(pages), after, upper);
  }

  lemma {:induction false} EmptyPage(
    world: World, services: Services, p: Prepared, upper: int, log: seq<Step>, c: Counters, pages: nat, after: int)
    requires BetweenPages(world, services, p, upper, log, c, pages, after)
    requires PagesRight(world, upper) && world.page(pages, after) == Some([])
    ensures Covered(world, pages + 1, log, upper)
    ensures ListedInOrder(world, log, pages + 1, Finished)
  {
    PageCovers(world, pages, [], log, log, after, upper);
    PartOfPage(world, log, log, pages, [], 0);
    BeforePage(world, log, pages + 1);
  }

  lemma {:induction false} WholePage(
    world: World, services: Services, p: Prepared, upper: int, log0: seq<Step>, c0: Counters, log: seq<Step>,
    c: Counters, pages: nat, after: int, keys: seq<Key>)
    requires BetweenPages(world, services, p, upper, log0, c0, pages, after)
    requires Good(world, services, p, upper, log, c) && Grown(log0, log, keys, |keys|)
    requires PagesRight(world, upper) && world.page(pages, after) == Some(keys) && keys != []
    ensures BetweenPages(world, services, p, upper, log, c, pages + 1, keys[|keys| - 1].id)
  {
    assert IsPage(keys, world.due(pages), after, upper);
    PageCovers(world, pages, keys, log0, log, after, upper);
    PartOfPage(world, log0, log, pages, keys, |keys|);
  }

  /** The loop over the pages ends, since every page ends above the one before and no page goes
      beyond the highest ID of the snapshot. */
  method ProcessPages(world: World, services: Services, p: Prepared, upper: int)
    returns (c: Counters, end: End, ghost log: seq<Step>, ghost pages: nat)
    requires PagesRight(world, upper)
    ensures end.Finished? || end.Cancelled? || end.PageFailed?
    ensures Good(world, services, p, upper, log, c) && ListedInOrder(world, log, pages, end)
    ensures end.Finished? ==> Covered(world, pages, log, upper)
  {
    c, log, pages := ZERO, [], 0;
    var after := 0;
    var n := 0;
    while true
      invariant n == pages && BetweenPages(world, services, p, upper, log, c, pages, after)
      decreases upper - after
    {
      BeforePage(world, log, n);
      if world.cancelledBeforePage(n) {
        return c, Cancelled, log, pages;
      }
      var keys := world.page(n, after);
      if keys.None? {
        return c, PageFailed, log, pages;
      }
      if |keys.value| == 0 {
        EmptyPage(world, services, p, upper, log, c, n, after);
        return c, Finished, log, pages + 1;
      }
      ghost var log0, c0 := log, c;
      NextPage(world, services, p, upper, log, c, n, after, keys.value);
      var cancelled;
      c, log, cancelled := ProcessPage(world, services, p, upper, keys.value, c, log, after);
      if cancelled {
        ghost var done :| Grown(log0, log, keys.value, done);
        PartOfPage(world, log0, log, n, keys.value, done);
        return c, Cancelled, log, pages;
      }
      WholePage(world, services, p, upper, log0, c0, log, c, n, after, keys.value);
      n, pages := n + 1, pages + 1;
      after := keys.value[|keys.value| - 1].id;
    }
  }

  method Execute(world: World, services: Services, snapshot: Snapshot, startedAt: int)
    returns (c: Counters, end: End, ghost log: seq<Step>, ghost pages: nat, ghost p: Option<Prepared>)
    requires DistinctSongs(snapshot.songs) && PagesRight(world, snapshot.upperBound)
    ensures end.NotPrepared? <==> p.None?
    ensures p.None? <==> Unprepared(snapshot, OperationalDay(startedAt))
    ensures p.None? ==> c == ZERO && log == []
    ensures p.Some? ==>
      && PreparedFrom(p.value, snapshot, OperationalDay(startedAt))
      && Good(world, services, p.value, snapshot.upperBound, log, c)
      && ListedInOrder(world, log, pages, end)
    ensures end.Finished? || end.PlayersFailed? ==> Covered(world, pages, log, snapshot.upperBound)
    ensures end.Finished? ==> c.failed == 0
    ensures end.PlayersFailed? ==> c.failed == end.count > 0
  {
    c, log, pages, p := ZERO, [], 0, None;
    var prepared := PrepareBatchSnapshot(snapshot, OperationalDay(startedAt));
    if prepared.Err? {
      return c, NotPrepared(prepared.error), [], 0, None;
    }
    p := Some(prepared.value);
    c, end, log, pages := ProcessPages(world, services, prepared.value, snapshot.upperBound);
    if end.Finished? && c.failed > 0 {
      end := PlayersFailed(c.failed);
    }
  }

  // ---------- the counters ----------

  lemma {:induction false} OutcomesAddUp(log: seq<Step>)
    requires forall k :: 0 <= k < |log| && log[k].outcome.Saved? && log[k].outcome.mode == CurrentPreserved ==>
      !log[k].outcome.slotsUnchanged
    ensures |log| == Times(log, (o: Outcome) => o.Saved?) + Times(log, (o: Outcome) => o == Conflict)
                     + Times(log, (o: Outcome) => o == Deleted) + Times(log, (o: Outcome) => o == Failed)
    ensures Times(log, (o: Outcome) => o.Saved?)
         == Times(log, (o: Outcome) => o.Saved? && o.mode == CurrentPreserved)
            + Times(log, (o: Outcome) => o.Saved? && o.mode == CurrentBrokenRebuilt)
            + Times(log, (o: Outcome) => o.Saved? && o.mode == LegacyRebuilt)
    ensures Times(log, (o: Outcome) => o.Saved? && o.slotsUnchanged)
         <= Times(log, (o: Outcome) => o.Saved? && o.mode == CurrentBrokenRebuilt)
            + Times(log, (o: Outcome) => o.Saved? && o.mode == LegacyRebuilt)
  {
    if log != [] {
      OutcomesAddUp(log[..|log| - 1]);
    }
  }

  /** The counters of any run, however it ends, account for every player processed. */
  lemma {:induction false} CountersAddUp(
      world: World, services: Services, p: Prepared, upper: int, log: seq<Step>, c: Counters)
    requires Good(world, services, p, upper, log, c)
    ensures c.processed == c.success + c.conflictSkipped + c.deletedSkipped + c.failed
    ensures c.success == c.currentPreserved + c.currentBrokenRebuilt + c.legacyRebuilt
    ensures c.slotsUnchanged <= c.currentBrokenRebuilt + c.legacyRebuilt
  {
    OutcomesAddUp(log);
  }

  /** Once a player is saved, processing the stored row again finds nothing broken and, where
      slots are rebuilt at all, finds them unchanged. */
  lemma {:induction false} SavedPlayersAreSettled(services: Services, p: Prepared, key: Key, row: Row)
    requires GoodMaster(services, p) && DistinctCharts(row.player.records)
    requires OutcomeOf(services, p, key, Found(row), true).Saved?
    ensures var current := IsCurrent(p, row.lastPlayedAt);
      var update := UpdateOf(services, p, row.player, current).0.value;
      var stored := row.(player := row.player.(records := Applied(p.slotIds, row.player.records, update.diff)));
      OutcomeOf(services, p, key, Found(stored), true)
      == Saved(if current then CurrentPreserved else LegacyRebuilt, !current, update.(diff := Diff([], [])))
  {
    SecondRunChangesNothing(services, p, row.player, IsCurrent(p, row.lastPlayedAt));
  }
}
