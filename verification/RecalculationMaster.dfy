/** The master data of a recalculation run. Dates are day numbers, times of day seconds. */
module RecalculationMaster {
  import opened Common
  import opened Sequences
  import opened SlotDiff

  /** The official index is a decimal string; None when it is not one. */
  datatype Song = Song(id: int, releasedAt: Option<int>, isDeleted: bool, isWorldsend: bool, officialIndex: Option<nat>)

  /** A chart with its constant as it is stored. */
  datatype ChartRow = ChartRow(id: int, songId: int, difficultyName: string, chartConst: real)

  /** The chart constant counts tenths. */
  datatype Chart = Chart(id: int, songId: int, difficultyName: string, chartConst: int)

  datatype Snapshot = Snapshot(
    versionReleasedAt: int, songs: seq<Song>, charts: seq<ChartRow>, slotIds: SlotIds, upperBound: int)

  datatype Prepared = Prepared(
    slotIds: SlotIds, versionReleasedAt: int, operationalDay: int,
    songs: map<int, Song>, charts: map<int, Chart>, officialIndex: map<int, nat>)

  datatype PrepareError =
    | MissingSlot(name: string)
    | BadOfficialIndex(songId: int)
    | SameOfficialIndex(songId: int)
    | BadChartConst(chartId: int)

  const DAY: int := 86_400
  const SEVEN_HOURS: int := 25_200
  const CONST_MIN: real := 1.0
  const CONST_MAX: real := 16.0
  const TOLERANCE: real := 0.000000001

  const REQUIRED_SLOTS: seq<string> := ["none", "best", "best_candidate", "new", "new_candidate"]

  /** The day changes at seven in the morning. */
  function OperationalDay(now: int): int { (now - SEVEN_HOURS) / DAY }

  function VersionStartedAt(versionReleasedAt: int): int { versionReleasedAt * DAY + SEVEN_HOURS }

  /** Released, rated songs. */
  predicate Available(song: Song, day: int) {
    !song.isDeleted && !song.isWorldsend && (song.releasedAt.Some? ==> song.releasedAt.value <= day)
  }

  function SongsById(songs: seq<Song>): map<int, Song> {
    if songs == [] then map[]
    else SongsById(songs[..|songs| - 1])[songs[|songs| - 1].id := songs[|songs| - 1]]
  }

  /** So many tenths, up to the tolerance. */
  predicate IsTenths(value: real, n: int) {
    -TOLERANCE <= value * 10.0 - n as real <= TOLERANCE
  }

  /** A constant within its bounds, in tenths. */
  function NewChartConstant(value: real): (tenths: Option<int>) {
    if value < CONST_MIN || value > CONST_MAX then None
    else
      var tenths := (value * 10.0 + 0.5).Floor;
      if IsTenths(value, tenths) then Some(tenths) else None
  }

  lemma {:induction false} OneRounding(x: real, n: int)
    requires -TOLERANCE <= x - n as real <= TOLERANCE
    ensures (x + 0.5).Floor == n
  {
  }

  /** A constant is accepted exactly within its bounds and with one decimal place; there is only
      one number of tenths it can stand for, from 10 to 160. */
  lemma {:induction false} ConstantAcceptedIff(value: real, n: int)
    ensures NewChartConstant(value) == Some(n) <==>
      1.0 <= value <= 16.0 && -0.000000001 <= value * 10.0 - n as real <= 0.000000001
    ensures NewChartConstant(value) == Some(n) ==> 10 <= n <= 160
  {
    if IsTenths(value, n) {
      OneRounding(value * 10.0, n);
    }
  }

  /** The charts with constants that can be used, the last one of an ID. */
  function ChartsById(charts: seq<ChartRow>): map<int, Chart> {
    if charts == [] then map[]
    else
      var row := charts[|charts| - 1];
      var rest := ChartsById(charts[..|charts| - 1]);
      match NewChartConstant(row.chartConst)
      case None => rest
      case Some(tenths) => rest[row.id := Chart(row.id, row.songId, row.difficultyName, tenths)]
  }

  ghost predicate SlotsPresent(slotIds: SlotIds) {
    forall name :: name in REQUIRED_SLOTS ==> name in slotIds
  }

  /** An available song has no index, or two of them share one. */
  ghost predicate SongsUnusable(songs: seq<Song>, day: int) {
    || (exists i :: 0 <= i < |songs| && Available(songs[i], day) && songs[i].officialIndex.None?)
    || (exists i, j :: 0 <= i < j < |songs| && Available(songs[i], day) && Available(songs[j], day)
                       && songs[i].officialIndex == songs[j].officialIndex)
  }

  /** Some chart constant is out of bounds or has more than one decimal place. */
  ghost predicate ChartsUnusable(charts: seq<ChartRow>) {
    exists i :: 0 <= i < |charts| && NewChartConstant(charts[i].chartConst).None?
  }

  /** Available songs have an official index of their own. */
  ghost predicate IndexesRight(songs: seq<Song>, day: int, index: map<int, nat>) {
    && (forall i :: 0 <= i < |songs| && Available(songs[i], day) ==>
          songs[i].id in index && songs[i].officialIndex == Some(index[songs[i].id]))
    && (forall a, b :: a in index && b in index && index[a] == index[b] ==> a == b)
  }

  ghost predicate DistinctSongs(songs: seq<Song>) {
    forall i, j :: 0 <= i < j < |songs| ==> songs[i].id != songs[j].id
  }

  /** A required slot is missing, or songs or charts cannot be used. */
  ghost predicate Unprepared(snapshot: Snapshot, day: int) {
    || (exists name :: name in {"none", "best", "best_candidate", "new", "new_candidate"}
          && (name !in snapshot.slotIds || snapshot.slotIds[name] == 0))
    || SongsUnusable(snapshot.songs, day) || ChartsUnusable(snapshot.charts)
  }

  ghost predicate PreparedFrom(p: Prepared, snapshot: Snapshot, day: int) {
    && p.slotIds == snapshot.slotIds && SlotsPresent(p.slotIds)
    && p.versionReleasedAt == snapshot.versionReleasedAt && p.operationalDay == day
    && p.songs == SongsById(snapshot.songs) && p.charts == ChartsById(snapshot.charts)
    && IndexesRight(snapshot.songs, day, p.officialIndex)
  }

  /** Song IDs are keys of the songs table. */
  method PrepareSongs(
      songs: seq<Song>, day: int) returns (result: Result<(map<int, Song>, map<int, nat>), PrepareError>)
    requires DistinctSongs(songs)
    ensures result.Ok? ==> result.value.0 == SongsById(songs) && IndexesRight(songs, day, result.value.1)
    ensures result.Err? <==> SongsUnusable(songs, day)
    ensures result.Err? ==> result.error.BadOfficialIndex? || result.error.SameOfficialIndex?
  {
    var byId: map<int, Song> := map[];
    var index: map<int, nat> := map[];
    var used: map<nat, int> := map[];
    for i := 0 to |songs|
      invariant byId == SongsById(songs[..i])
      invariant forall j :: 0 <= j < i && Available(songs[j], day) ==>
        && songs[j].id in index && songs[j].officialIndex == Some(index[songs[j].id])
        && index[songs[j].id] in used
      invariant forall x :: x in used ==>
        exists j :: 0 <= j < i && Available(songs[j], day) && songs[j].officialIndex == Some(x)
      invariant forall id :: id in index ==> index[id] in used && used[index[id]] == id
    {
      assert songs[..i + 1][..i] == songs[..i];
      var song := songs[i];
      byId := byId[song.id := song];
      if !Available(song, day) {
        continue;
      }
      if song.officialIndex.None? {
        return Err(BadOfficialIndex(song.id));
      }
      if song.officialIndex.value in used {
        return Err(SameOfficialIndex(song.id));
      }
      used := used[song.officialIndex.value := song.id];
      index := index[song.id := song.officialIndex.value];
    }
    assert songs[..|songs|] == songs;
    return Ok((byId, index));
  }

  method PrepareCharts(charts: seq<ChartRow>) returns (result: Result<map<int, Chart>, PrepareError>)
    ensures result.Err? <==> ChartsUnusable(charts)
    ensures result.Err? ==> exists i :: 0 <= i < |charts| && result.error == BadChartConst(charts[i].id)
                                        && NewChartConstant(charts[i].chartConst).None?
    ensures result.Ok? ==> result.value == ChartsById(charts)
  {
    var byId: map<int, Chart> := map[];
    for i := 0 to |charts|
      invariant byId == ChartsById(charts[..i])
      invariant forall j :: 0 <= j < i ==> NewChartConstant(charts[j].chartConst).Some?
    {
      assert charts[..i + 1][..i] == charts[..i];
      var tenths := NewChartConstant(charts[i].chartConst);
      if tenths.None? {
        return Err(BadChartConst(charts[i].id));
      }
      byId := byId[charts[i].id := Chart(charts[i].id, charts[i].songId, charts[i].difficultyName, tenths.value)];
    }
    assert charts[..|charts|] == charts;
    return Ok(byId);
  }

  /** Refused for the first reason that applies: slots, songs, charts. */
  method PrepareBatchSnapshot(snapshot: Snapshot, operationalDay: int) returns (result: Result<Prepared, PrepareError>)
    requires DistinctSongs(snapshot.songs)
    ensures result.Err? <==> Unprepared(snapshot, operationalDay)
    ensures result.Err? ==>
      && (result.error.MissingSlot? <==> exists name :: name in REQUIRED_SLOTS && IdOf(snapshot.slotIds, name) == 0)
      && (result.error.BadChartConst? ==> !SongsUnusable(snapshot.songs, operationalDay))
      && (result.error.BadOfficialIndex? || result.error.SameOfficialIndex? ==>
            SongsUnusable(snapshot.songs, operationalDay))
    ensures result.Ok? ==> PreparedFrom(result.value, snapshot, operationalDay)
  {
    for i := 0 to |REQUIRED_SLOTS|
      invariant forall j :: 0 <= j < i ==> IdOf(snapshot.slotIds, REQUIRED_SLOTS[j]) != 0
    {
      if IdOf(snapshot.slotIds, REQUIRED_SLOTS[i]) == 0 {
        assert REQUIRED_SLOTS[i] in REQUIRED_SLOTS;
        return Err(MissingSlot(REQUIRED_SLOTS[i]));
      }
    }
    assert REQUIRED_SLOTS[0] == "none" && REQUIRED_SLOTS[1] == "best" && REQUIRED_SLOTS[2] == "best_candidate"
        && REQUIRED_SLOTS[3] == "new" && REQUIRED_SLOTS[4] == "new_candidate";
    var songs := PrepareSongs(snapshot.songs, operationalDay);
    if songs.Err? {
      return Err(songs.error);
    }
    var charts := PrepareCharts(snapshot.charts);
    if charts.Err? {
      return Err(charts.error);
    }
    return Ok(Prepared(
      snapshot.slotIds, snapshot.versionReleasedAt, operationalDay,
      songs.value.0, charts.value, songs.value.1));
  }

  lemma {:induction false} SongsByIdAre(songs: seq<Song>, id: int) returns (i: nat)
    requires id in SongsById(songs)
    ensures i < |songs| && songs[i] == SongsById(songs)[id] && songs[i].id == id
  {
    var n := |songs| - 1;
    if songs[n].id == id {
      i := n;
    } else {
      i := SongsByIdAre(songs[..n], id);
    }
  }

  /** Every song that rates has an official index, and no other song shares it, so records are
      never ordered by the index zero of a song that has none. */
  lemma {:induction false} RatedSongsHaveOwnIndex(snapshot: Snapshot, p: Prepared, id: int, other: int)
    requires p.songs == SongsById(snapshot.songs)
    requires IndexesRight(snapshot.songs, p.operationalDay, p.officialIndex)
    requires id in p.songs && Available(p.songs[id], p.operationalDay)
    requires other in p.songs && Available(p.songs[other], p.operationalDay)
    ensures id in p.officialIndex && p.songs[id].officialIndex == Some(p.officialIndex[id])
    ensures p.songs[id].officialIndex == p.songs[other].officialIndex ==> id == other
  {
    var i := SongsByIdAre(snapshot.songs, id);
    var j := SongsByIdAre(snapshot.songs, other);
  }
}
