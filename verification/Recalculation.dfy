/** The recalculation of one player: whether the slots are kept or rebuilt, and the update. */
module Recalculation {
  import opened Common
  import opened RatingSlots
  import opened SlotDiff
  import opened OfficialSlots
  import opened RecalculationMaster

  datatype LockedSong = LockedSong(songId: int, isUltima: bool)

  datatype Player = Player(records: seq<Record>, lockedSongs: seq<LockedSong>)

  datatype OverpowerRecord = OverpowerRecord(songId: int, score: nat, chartConst: int, comboLampId: int)

  /** The sort of the standard library and the OVER POWER total, which depends on the listed
      records alone. */
  datatype Services = Services(sort: Sort, overpower: seq<OverpowerRecord> -> int)

  datatype Update = Update(diff: Diff, stats: RatingStats, overpower: int)

  datatype UpdateError = UnknownChart(chartId: int) | UnknownSong(songId: int)

  /** The rating pools of a rebuild, and the main slots that are kept otherwise. */
  datatype Pool = OldSongs | NewSongs | KeptBest | KeptNew

  // ---------- what a record counts for ----------

  function Problem(p: Prepared, record: Record): Option<UpdateError> {
    if record.chartId !in p.charts then Some(UnknownChart(record.chartId))
    else if p.charts[record.chartId].songId !in p.songs then Some(UnknownSong(p.charts[record.chartId].songId))
    else None
  }

  function SongOf(p: Prepared, record: Record): Song
    requires Problem(p, record).None?
  {
    p.songs[p.charts[record.chartId].songId]
  }

  predicate Eligible(p: Prepared, record: Record) {
    Problem(p, record).None? && Available(SongOf(p, record), p.operationalDay)
  }

  function IndexOf(p: Prepared, songId: int): nat {
    if songId in p.officialIndex then p.officialIndex[songId] else 0
  }

  function RatingRecordOf(p: Prepared, record: Record): RatingRecord
    requires Problem(p, record).None?
  {
    RatingRecord(record.chartId, record.score, p.charts[record.chartId].chartConst, IndexOf(p, SongOf(p, record).id))
  }

  predicate IsNewSong(p: Prepared, song: Song) {
    song.releasedAt.None? || song.releasedAt.value >= p.versionReleasedAt
  }

  predicate InPool(p: Prepared, record: Record, pool: Pool) {
    Eligible(p, record)
    && match pool
       case OldSongs => !IsNewSong(p, SongOf(p, record))
       case NewSongs => IsNewSong(p, SongOf(p, record))
       case KeptBest => record.slotName == "best"
       case KeptNew => record.slotName == "new"
  }

  function PoolOf(p: Prepared, records: seq<Record>, pool: Pool): seq<RatingRecord> {
    if records == [] then []
    else
      var last := records[|records| - 1];
      PoolOf(p, records[..|records| - 1], pool) + (if InPool(p, last, pool) then [RatingRecordOf(p, last)] else [])
  }

  /** An unlocked ULTIMA chart needs the song itself unlocked too. */
  predicate Locked(lockedSongs: seq<LockedSong>, songId: int, isUltima: bool) {
    exists i :: 0 <= i < |lockedSongs| && lockedSongs[i].songId == songId && (isUltima || !lockedSongs[i].isUltima)
  }

  predicate CountsForOverpower(p: Prepared, lockedSongs: seq<LockedSong>, record: Record) {
    Problem(p, record).None?
    && var song := SongOf(p, record);
       !song.isDeleted && !song.isWorldsend
       && !Locked(lockedSongs, song.id, p.charts[record.chartId].difficultyName == "ULTIMA")
  }

  function OverpowerRecordOf(p: Prepared, record: Record): OverpowerRecord
    requires Problem(p, record).None?
  {
    OverpowerRecord(SongOf(p, record).id, record.score, p.charts[record.chartId].chartConst, record.comboLampId)
  }

  function OverpowerRecords(p: Prepared, lockedSongs: seq<LockedSong>, records: seq<Record>): seq<OverpowerRecord> {
    if records == [] then []
    else
      var last := records[|records| - 1];
      OverpowerRecords(p, lockedSongs, records[..|records| - 1])
      + (if CountsForOverpower(p, lockedSongs, last) then [OverpowerRecordOf(p, last)] else [])
  }

  // ---------- what the update is ----------

  function Entries(records: seq<Record>): (entries: seq<Entry>)
    ensures |entries| == |records|
    ensures forall i :: 0 <= i < |entries| ==> entries[i] == Entry(records[i].slotName, records[i].slotOrder)
  {
    seq(|records|, i requires 0 <= i < |records| => Entry(records[i].slotName, records[i].slotOrder))
  }

  /** How many records come before the first one the master data cannot resolve. */
  function Resolvable(p: Prepared, records: seq<Record>): (n: nat)
    ensures n <= |records|
    ensures forall i :: 0 <= i < n ==> Problem(p, records[i]).None?
    ensures n < |records| ==> Problem(p, records[n]).Some?
  {
    if records == [] then 0
    else
      var n := Resolvable(p, records[..|records| - 1]);
      if n == |records| - 1 && Problem(p, records[n]).None? then n + 1 else n
  }

  predicate SomeEligible(p: Prepared, records: seq<Record>, n: nat)
    requires n <= |records|
  {
    exists i :: 0 <= i < n && Eligible(p, records[i])
  }

  predicate NoMainSlots(records: seq<Record>) {
    forall i :: 0 <= i < |records| ==> records[i].slotName != "best" && records[i].slotName != "new"
  }

  /** The stored main slots of a current player cannot be right: they are invalid, or empty
      although one of the first n records could be in them. */
  ghost predicate Broken(p: Prepared, records: seq<Record>, current: bool, n: nat)
    requires n <= |records|
  {
    current && (!MainSlotsOk(Entries(records)) || (NoMainSlots(records) && SomeEligible(p, records, n)))
  }

  function RebuiltGroups(services: Services, best: seq<RatingRecord>, new_: seq<RatingRecord>): seq<SlotGroup> {
    var bestSlots := Slots(services.sort, best, BEST_MAX, CANDIDATE_MAX);
    var newSlots := Slots(services.sort, new_, NEW_MAX, CANDIDATE_MAX);
    [SlotGroup("best", bestSlots.main), SlotGroup("best_candidate", bestSlots.candidates),
     SlotGroup("new", newSlots.main), SlotGroup("new_candidate", newSlots.candidates)]
  }

  function Groups(services: Services, p: Prepared, records: seq<Record>): seq<SlotGroup> {
    RebuiltGroups(services, PoolOf(p, records, OldSongs), PoolOf(p, records, NewSongs))
  }

  function Rebuilt(services: Services, p: Prepared, player: Player): Update {
    var groups := Groups(services, p, player.records);
    Update(
      DiffOf(p.slotIds, player.records, groups),
      OfficialStats(groups[0].records, groups[2].records),
      services.overpower(OverpowerRecords(p, player.lockedSongs, player.records)))
  }

  function Kept(services: Services, p: Prepared, player: Player): Update {
    Update(
      Diff([], []),
      OfficialStats(PoolOf(p, player.records, KeptBest), PoolOf(p, player.records, KeptNew)),
      services.overpower(OverpowerRecords(p, player.lockedSongs, player.records)))
  }

  ghost function UpdateOf(services: Services, p: Prepared, player: Player, current: bool)
    : (Result<Update, UpdateError>, bool)
  {
    var n := Resolvable(p, player.records);
    var broken := Broken(p, player.records, current, n);
    if n < |player.records| then (Err(Problem(p, player.records[n]).value), broken)
    else (Ok(if !current || broken then Rebuilt(services, p, player) else Kept(services, p, player)), broken)
  }

  // ---------- the computation ----------

  lemma {:induction false} NothingKept(p: Prepared, records: seq<Record>, n: nat)
    requires n <= |records| && NoMainSlots(records)
    ensures PoolOf(p, records[..n], KeptBest) == [] && PoolOf(p, records[..n], KeptNew) == []
  {
    if n > 0 {
      assert records[..n][..n - 1] == records[..n - 1];
      NothingKept(p, records, n - 1);
    }
  }

  lemma {:induction false} NothingPooled(p: Prepared, records: seq<Record>, n: nat, pool: Pool)
    requires n <= |records| && !SomeEligible(p, records, n)
    ensures PoolOf(p, records[..n], pool) == []
  {
    if n > 0 {
      assert records[..n][..n - 1] == records[..n - 1];
      assert !Eligible(p, records[n - 1]);
      NothingPooled(p, records, n - 1, pool);
    }
  }

  lemma {:induction false} ResolvableIs(p: Prepared, records: seq<Record>, n: nat)
    requires n <= |records| && forall i :: 0 <= i < n ==> Problem(p, records[i]).None?
    ensures n <= Resolvable(p, records)
    ensures n < |records| && Problem(p, records[n]).Some? ==> n == Resolvable(p, records)
  {
  }

  lemma {:induction false} OneMore(p: Prepared, records: seq<Record>, i: nat, pool: Pool)
    requires i < |records|
    ensures PoolOf(p, records[..i + 1], pool) == PoolOf(p, records[..i], pool) + Share(p, records[i], pool)
  {
    assert records[..i + 1][..i] == records[..i];
  }

  lemma {:induction false} OneMoreOverpower(p: Prepared, lockedSongs: seq<LockedSong>, records: seq<Record>, i: nat)
    requires i < |records|
    ensures OverpowerRecords(p, lockedSongs, records[..i + 1])
         == OverpowerRecords(p, lockedSongs, records[..i]) + OverpowerShare(p, lockedSongs, records[i])
  {
    assert records[..i + 1][..i] == records[..i];
  }

  /** What a record adds to a pool. */
  function Share(p: Prepared, record: Record, pool: Pool): seq<RatingRecord> {
    if InPool(p, record, pool) then [RatingRecordOf(p, record)] else []
  }

  function FirstPool(rebuild: bool): Pool { if rebuild then OldSongs else KeptBest }

  function SecondPool(rebuild: bool): Pool { if rebuild then NewSongs else KeptNew }

  /** The two lists hold what the first n records add to the pools of the chosen mode. */
  ghost predicate Pooled(
    p: Prepared, records: seq<Record>, n: nat, rebuild: bool, best: seq<RatingRecord>, new_: seq<RatingRecord>)
  {
    && n <= |records|
    && best == PoolOf(p, records[..n], FirstPool(rebuild))
    && new_ == PoolOf(p, records[..n], SecondPool(rebuild))
  }

  lemma {:induction false} PooledOneMore(
    p: Prepared, records: seq<Record>, i: nat, rebuild: bool, best: seq<RatingRecord>, new_: seq<RatingRecord>)
    requires i < |records| && Pooled(p, records, i, rebuild, best, new_)
    ensures Pooled(p, records, i + 1, rebuild,
                   best + Share(p, records[i], FirstPool(rebuild)), new_ + Share(p, records[i], SecondPool(rebuild)))
    ensures !Eligible(p, records[i]) ==> Pooled(p, records, i + 1, rebuild, best, new_)
  {
    OneMore(p, records, i, FirstPool(rebuild));
    OneMore(p, records, i, SecondPool(rebuild));
  }

  /** Deciding to rebuild on the first record that could be in a main slot finds both lists
      empty, as the lists of a rebuild would be. */
  lemma {:induction false} StillEmpty(
      p: Prepared, records: seq<Record>, i: nat, best: seq<RatingRecord>, new_: seq<RatingRecord>)
    requires Pooled(p, records, i, false, best, new_)
    requires NoMainSlots(records) && !SomeEligible(p, records, i)
    ensures best == [] && new_ == [] && Pooled(p, records, i, true, [], [])
  {
    NothingKept(p, records, i);
    NothingPooled(p, records, i, OldSongs);
    NothingPooled(p, records, i, NewSongs);
  }

  method AddToPools(p: Prepared, record: Record, rebuild: bool, best0: seq<RatingRecord>, new0: seq<RatingRecord>)
    returns (best: seq<RatingRecord>, new_: seq<RatingRecord>)
    requires Eligible(p, record)
    ensures best == best0 + Share(p, record, FirstPool(rebuild))
    ensures new_ == new0 + Share(p, record, SecondPool(rebuild))
  {
    best, new_ := best0, new0;
    if !rebuild {
      if record.slotName == "best" {
        best := best + [RatingRecordOf(p, record)];
      } else if record.slotName == "new" {
        new_ := new_ + [RatingRecordOf(p, record)];
      }
      return;
    }
    if IsNewSong(p, SongOf(p, record)) {
      new_ := new_ + [RatingRecordOf(p, record)];
    } else {
      best := best + [RatingRecordOf(p, record)];
    }
  }

  /** What the loop has collected of the first n records, and whether it has found the stored
      slots broken. */
  ghost predicate Collected(
    p: Prepared, player: Player, current: bool, invalid: bool, n: nat, broken: bool,
    best: seq<RatingRecord>, new_: seq<RatingRecord>, overpower: seq<OverpowerRecord>)
  {
    && n <= |player.records|
    && (forall j :: 0 <= j < n ==> Problem(p, player.records[j]).None?)
    && broken == (invalid || (current && NoMainSlots(player.records) && SomeEligible(p, player.records, n)))
    && overpower == OverpowerRecords(p, player.lockedSongs, player.records[..n])
    && Pooled(p, player.records, n, !current || broken, best, new_)
  }

  function OverpowerShare(p: Prepared, lockedSongs: seq<LockedSong>, record: Record): seq<OverpowerRecord> {
    if CountsForOverpower(p, lockedSongs, record) then [OverpowerRecordOf(p, record)] else []
  }

  /** A record that is not available counts for OVER POWER at most. */
  lemma {:induction false} CollectedWithout(
    p: Prepared, player: Player, current: bool, invalid: bool, i: nat, broken: bool,
    best: seq<RatingRecord>, new_: seq<RatingRecord>, overpower: seq<OverpowerRecord>)
    requires i < |player.records| && Collected(p, player, current, invalid, i, broken, best, new_, overpower)
    requires Problem(p, player.records[i]).None? && !Eligible(p, player.records[i])
    ensures Collected(p, player, current, invalid, i + 1, broken, best, new_,
                      overpower + OverpowerShare(p, player.lockedSongs, player.records[i]))
  {
    OneMoreOverpower(p, player.lockedSongs, player.records, i);
    PooledOneMore(p, player.records, i, !current || broken, best, new_);
  }

  /** An available record goes to the pools of the mode, which it may decide. */
  lemma {:induction false} CollectedWith(
    p: Prepared, player: Player, current: bool, invalid: bool, i: nat, broken: bool,
    best: seq<RatingRecord>, new_: seq<RatingRecord>, overpower: seq<OverpowerRecord>)
    requires i < |player.records| && Collected(p, player, current, invalid, i, broken, best, new_, overpower)
    requires Eligible(p, player.records[i])
    ensures var broken' := broken || (current && NoMainSlots(player.records)); var rebuild := !current || broken';
      Collected(p, player, current, invalid, i + 1, broken',
                best + Share(p, player.records[i], FirstPool(rebuild)),
                new_ + Share(p, player.records[i], SecondPool(rebuild)),
                overpower + OverpowerShare(p, player.lockedSongs, player.records[i]))
  {
    var broken' := broken || (current && NoMainSlots(player.records));
    OneMoreOverpower(p, player.lockedSongs, player.records, i);
    if broken' && !broken {
      StillEmpty(p, player.records, i, best, new_);
    }
    PooledOneMore(p, player.records, i, !current || broken', best, new_);
  }

  /** Collects the records that count, deciding on the way whether the slots are rebuilt. A
      decision on the way finds both lists still empty. */
  method Collect(p: Prepared, player: Player, current: bool, invalid: bool)
    returns (error: Option<UpdateError>, broken: bool,
             best: seq<RatingRecord>, new_: seq<RatingRecord>, overpower: seq<OverpowerRecord>)
    requires invalid == (current && !MainSlotsOk(Entries(player.records)))
    ensures broken == Broken(p, player.records, current, Resolvable(p, player.records))
    ensures error == if Resolvable(p, player.records) < |player.records|
                     then Problem(p, player.records[Resolvable(p, player.records)]) else None
    ensures error.None? ==>
      && overpower == OverpowerRecords(p, player.lockedSongs, player.records)
      && best == PoolOf(p, player.records, FirstPool(!current || broken))
      && new_ == PoolOf(p, player.records, SecondPool(!current || broken))
  {
    var records := player.records;
    broken := invalid;
    var rebuild := !current || broken;
    var mainSlotsMissing := current && NoMainSlots(records);
    error, best, new_, overpower := None, [], [], [];
    for i := 0 to |records|
      invariant rebuild == (!current || broken)
      invariant Collected(p, player, current, invalid, i, broken, best, new_, overpower)
    {
      var record := records[i];
      if Problem(p, record).Some? {
        ResolvableIs(p, records, i);
        return Problem(p, record), broken, best, new_, overpower;
      }
      ghost var counted := overpower;
      if CountsForOverpower(p, player.lockedSongs, record) {
        overpower := overpower + [OverpowerRecordOf(p, record)];
      }
      if !Available(SongOf(p, record), p.operationalDay) {
        CollectedWithout(p, player, current, invalid, i, broken, best, new_, counted);
        continue;
      }
      CollectedWith(p, player, current, invalid, i, broken, best, new_, counted);
      if mainSlotsMissing && !rebuild {
        broken, rebuild := true, true;
      }
      best, new_ := AddToPools(p, record, rebuild, best, new_);
    }
    ResolvableIs(p, records, |records|);
    assert records[..|records|] == records;
  }

  method BuildUpdate(services: Services, p: Prepared, player: Player, current: bool)
    returns (update: Result<Update, UpdateError>, broken: bool)
    ensures (update, broken) == UpdateOf(services, p, player, current)
  {
    var invalid := false;
    if current {
      var slot := ValidateOfficialMainSlots(Entries(player.records));
      invalid := slot.Some?;
    }
    var error, best, new_, overpower;
    error, broken, best, new_, overpower := Collect(p, player, current, invalid);
    if error.Some? {
      return Err(error.value), broken;
    }
    if current && !broken {
      // Invalid candidate slots are only reported.
      var bestCandidates := ValidateOfficialSlotSet(Entries(player.records), "best_candidate", CANDIDATE_MAX);
      var newCandidates := ValidateOfficialSlotSet(Entries(player.records), "new_candidate", CANDIDATE_MAX);
      var stats := AggregateOfficialRating(best, new_);
      return Ok(Update(Diff([], []), stats, services.overpower(overpower))), broken;
    }
    var bestSlots := BuildRatingSlots(services.sort, best, BEST_MAX, CANDIDATE_MAX);
    var newSlots := BuildRatingSlots(services.sort, new_, NEW_MAX, CANDIDATE_MAX);
    var groups := [
      SlotGroup("best", bestSlots.main), SlotGroup("best_candidate", bestSlots.candidates),
      SlotGroup("new", newSlots.main), SlotGroup("new_candidate", newSlots.candidates)];
    assert groups == Groups(services, p, player.records);
    var clears, assignments := DiffSlots(p.slotIds, player.records, groups);
    var stats := AggregateOfficialRating(bestSlots.main, newSlots.main);
    return Ok(Update(Diff(clears, assignments), stats, services.overpower(overpower))), broken;
  }
}
