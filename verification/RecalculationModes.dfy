/** How a run treats its players, by the instant they last played and by their slots. */
module RecalculationModes {
  import opened Common
  import opened SlotDiff
  import opened RecalculationMaster
  import opened Recalculation
  import opened RecalculationFixpoint
  import opened RecalculationRun
  import opened RecalculationMeaning

  /** The day changes at seven in the morning, and so does the version. */
  lemma {:induction false} DayStartsAtSeven(at: int)
    ensures OperationalDay(at) * 86_400 + 25_200 <= at < (OperationalDay(at) + 1) * 86_400 + 25_200
    ensures VersionStartedAt(OperationalDay(at)) <= at
  {
  }

  /** Last played before the version of the snapshot started, or never. */
  ghost predicate Legacy(snapshot: Snapshot, row: Row) {
    row.lastPlayedAt.None? || row.lastPlayedAt.value < snapshot.versionReleasedAt * 86_400 + 25_200
  }

  /** "best" or "new" is not valid, or nothing is in them although a song is out. */
  ghost predicate SlotsBroken(p: Prepared, records: seq<Record>) {
    || !SlotValid(records, "best", 30) || !SlotValid(records, "new", 20)
    || (NoMainRecord(records) && SomePlayable(p, records))
  }

  /** The k-th player of a run is saved only if its row was found as it was listed; it counts as
      legacy exactly if it last played before the version, and otherwise as broken exactly if its
      slots are, and as preserved if they are not. */
  lemma {:induction false} ModesByDate(
    world: World, services: Services, snapshot: Snapshot, p: Prepared, day: int, log: seq<Step>, c: Counters, k: nat)
    requires PreparedFrom(p, snapshot, day) && Good(world, services, p, snapshot.upperBound, log, c)
    requires k < |log| && log[k].outcome.Saved?
    ensures world.lookup(k).Found? && world.commits(k)
    ensures world.lookup(k).row.collectedAt == log[k].key.collectedAt
    ensures var row, mode := world.lookup(k).row, log[k].outcome.mode;
      && (mode == LegacyRebuilt <==> Legacy(snapshot, row))
      && (mode == CurrentBrokenRebuilt <==> !Legacy(snapshot, row) && SlotsBroken(p, row.player.records))
      && (mode == CurrentPreserved <==> !Legacy(snapshot, row) && !SlotsBroken(p, row.player.records))
  {
    var row := world.lookup(k).row;
    BrokenIff(services, p, row.player, IsCurrent(p, row.lastPlayedAt));
  }

  /** A player that last played since the version started, with distinct orders within the limits
      and something in "best" or "new", is preserved, and every record stays where it is. */
  lemma {:induction false} ValidSlotsAreKept(
    world: World, services: Services, snapshot: Snapshot, p: Prepared, day: int, log: seq<Step>, c: Counters, k: nat)
    requires PreparedFrom(p, snapshot, day) && Good(world, services, p, snapshot.upperBound, log, c)
    requires k < |log| && log[k].outcome.Saved?
    requires var row := world.lookup(k).row;
      && row.lastPlayedAt.Some? && row.lastPlayedAt.value >= snapshot.versionReleasedAt * 86_400 + 25_200
      && SlotValid(row.player.records, "best", 30) && SlotValid(row.player.records, "new", 20)
      && exists i :: 0 <= i < |row.player.records| && row.player.records[i].slotName in {"best", "new"}
    ensures log[k].outcome.mode == CurrentPreserved && !log[k].outcome.slotsUnchanged
    ensures var records := world.lookup(k).row.player.records;
      Applied(snapshot.slotIds, records, log[k].outcome.update.diff) == records
  {
    ModesByDate(world, services, snapshot, p, day, log, c, k);
    KeptSlotsStay(services, p, world.lookup(k).row.player, true);
  }

  /** All other saved players get rebuilt slots. */
  lemma {:induction false} OthersAreRebuilt(
    world: World, services: Services, snapshot: Snapshot, p: Prepared, day: int, log: seq<Step>, c: Counters, k: nat)
    requires PreparedFrom(p, snapshot, day) && Good(world, services, p, snapshot.upperBound, log, c)
    requires k < |log| && log[k].outcome.Saved?
    requires Legacy(snapshot, world.lookup(k).row) || SlotsBroken(p, world.lookup(k).row.player.records)
    ensures var player := world.lookup(k).row.player;
      Rebuilds(services, p, player, !Legacy(snapshot, world.lookup(k).row),
               Applied(snapshot.slotIds, player.records, log[k].outcome.update.diff))
    ensures log[k].outcome.slotsUnchanged <==> log[k].outcome.update.diff == Diff([], [])
  {
    ModesByDate(world, services, snapshot, p, day, log, c, k);
  }

  /** The other outcomes of a run. */
  lemma {:induction false} OthersByRow(
    world: World, services: Services, snapshot: Snapshot, p: Prepared, day: int, log: seq<Step>, c: Counters, k: nat)
    requires PreparedFrom(p, snapshot, day) && Good(world, services, p, snapshot.upperBound, log, c)
    requires k < |log|
    ensures log[k].outcome == Deleted <==> world.lookup(k) == Gone
    ensures log[k].outcome == Conflict <==>
      world.lookup(k).Found? && world.lookup(k).row.collectedAt != log[k].key.collectedAt
    ensures log[k].outcome == Failed <==>
      || world.lookup(k) == ReadFails
      || (&& world.lookup(k).Found? && world.lookup(k).row.collectedAt == log[k].key.collectedAt
          && (!world.commits(k) || Unresolvable(p, world.lookup(k).row.player.records)))
  {
    if world.lookup(k).Found? {
      var row := world.lookup(k).row;
      UnresolvableFails(services, p, row.player, IsCurrent(p, row.lastPlayedAt));
    }
  }

  /** Some record is of a chart, or its chart of a song, that the master data lack. */
  ghost predicate Unresolvable(p: Prepared, records: seq<Record>) {
    exists i :: 0 <= i < |records|
      && (records[i].chartId !in p.charts || p.charts[records[i].chartId].songId !in p.songs)
  }

  lemma {:induction false} UnresolvableFails(services: Services, p: Prepared, player: Player, current: bool)
    ensures UpdateOf(services, p, player, current).0.Err? <==> Unresolvable(p, player.records)
  {
    var n := Resolvable(p, player.records);
    if Unresolvable(p, player.records) && n == |player.records| {
      var i :| 0 <= i < n && (player.records[i].chartId !in p.charts
        || p.charts[player.records[i].chartId].songId !in p.songs);
      assert false;
    }
    if n < |player.records| {
      assert Problem(p, player.records[n]).Some?;
    }
  }
}
