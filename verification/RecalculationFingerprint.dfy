/** The fingerprint of the master data, by which a recalculation run leaves out players that were
    recalculated with the same data before. */
module RecalculationFingerprint {
  import opened Common
  import opened Sequences
  import opened RatingSlots
  import opened SlotDiff
  import opened OfficialSlots
  import opened RecalculationMaster
  import opened Recalculation
  import opened RecalculationFixpoint
  import opened RecalculationRun

  /** The master data a fingerprint covers: not the operational day. */
  datatype Covers = Covers(versionReleasedAt: int, songs: seq<Song>, charts: seq<ChartRow>, slotIds: SlotIds)

  /** The sorts of the standard library, and a hash. */
  datatype Printing<!F> = Printing(
    sortSongs: seq<Song> -> seq<Song>, sortCharts: seq<ChartRow> -> seq<ChartRow>, hash: Covers -> F)

  ghost predicate Ascending<T>(s: seq<T>, key: T -> int) {
    forall i, j :: 0 <= i < j < |s| ==> key(s[i]) <= key(s[j])
  }

  ghost predicate SortsBy<T(!new)>(sort: seq<T> -> seq<T>, key: T -> int) {
    forall s :: multiset(sort(s)) == multiset(s) && Ascending(sort(s), key)
  }

  function SongId(song: Song): int { song.id }

  function ChartId(chart: ChartRow): int { chart.id }

  /** Different data have different fingerprints. */
  ghost predicate GoodPrinting<F(!new)>(printing: Printing<F>) {
    && SortsBy(printing.sortSongs, SongId) && SortsBy(printing.sortCharts, ChartId)
    && forall a, b :: printing.hash(a) == printing.hash(b) ==> a == b
  }

  function CoversOf<F>(printing: Printing<F>, snapshot: Snapshot): Covers {
    Covers(snapshot.versionReleasedAt, printing.sortSongs(snapshot.songs), printing.sortCharts(snapshot.charts),
           snapshot.slotIds)
  }

  function FingerprintOf<F>(printing: Printing<F>, snapshot: Snapshot): F {
    printing.hash(CoversOf(printing, snapshot))
  }

  /** Song and chart IDs are keys of their tables. */
  ghost predicate Keyed(snapshot: Snapshot) {
    DistinctSongs(snapshot.songs) && Distinct(Map(ChartId, snapshot.charts))
  }

  // ---------- the order in which rows are read ----------

  ghost predicate Strictly<T>(s: seq<T>, key: T -> int) {
    forall i, j :: 0 <= i < j < |s| ==> key(s[i]) < key(s[j])
  }

  lemma {:induction false} SameLast<T>(a: seq<T>, b: seq<T>, key: T -> int)
    requires multiset(a) == multiset(b) && Strictly(a, key) && Strictly(b, key) && a != [] && b != []
    ensures a[|a| - 1] == b[|b| - 1]
  {
    var x, y := a[|a| - 1], b[|b| - 1];
    assert x in multiset(b) && y in multiset(a);
    var i :| 0 <= i < |b| && b[i] == x;
    var j :| 0 <= j < |a| && a[j] == y;
    assert i < |b| - 1 ==> key(x) < key(y);
    assert j < |a| - 1 ==> key(y) < key(x);
  }

  lemma {:induction false} SameWithLast<T>(a: seq<T>, b: seq<T>)
    requires |a| == |b| > 0 && a[..|a| - 1] == b[..|b| - 1] && a[|a| - 1] == b[|b| - 1]
    ensures a == b
  {
    assert a == a[..|a| - 1] + [a[|a| - 1]];
  }

  lemma {:induction false} SortedOnce<T>(a: seq<T>, b: seq<T>, key: T -> int)
    requires multiset(a) == multiset(b) && Strictly(a, key) && Strictly(b, key)
    ensures a == b
    decreases |a|
  {
    assert |a| == |multiset(a)| == |multiset(b)| == |b|;
    if a != [] {
      var n := |a| - 1;
      SameLast(a, b, key);
      WithoutLast(a);
      WithoutLast(b);
      var a', b' := a[..n], b[..n];
      SortedOnce(a', b', key);
      SameWithLast(a, b);
    }
  }

  /** Sorting what has distinct keys makes them strictly ascending. */
  lemma {:induction false} SortedStrictly<T>(s: seq<T>, sorted: seq<T>, key: T -> int)
    requires multiset(sorted) == multiset(s) && Ascending(sorted, key)
    requires Distinct(Map(key, s))
    ensures Strictly(sorted, key)
  {
    assert forall i, j :: 0 <= i < j < |s| ==> Map(key, s)[i] != Map(key, s)[j];
    DistinctPermutation(s, sorted);
    forall i, j | 0 <= i < j < |sorted| ensures key(sorted[i]) < key(sorted[j]) {
      assert sorted[i] in multiset(s) && sorted[j] in multiset(s);
      var k :| 0 <= k < |s| && s[k] == sorted[i];
      var l :| 0 <= l < |s| && s[l] == sorted[j];
      assert k != l && Map(key, s)[k] != Map(key, s)[l];
    }
  }

  ghost predicate SameMaster(a: Snapshot, b: Snapshot) {
    && a.versionReleasedAt == b.versionReleasedAt && a.slotIds == b.slotIds
    && multiset(a.songs) == multiset(b.songs) && multiset(a.charts) == multiset(b.charts)
  }

  lemma {:induction false} SameSorted<T(!new)>(sort: seq<T> -> seq<T>, key: T -> int, a: seq<T>, b: seq<T>)
    requires SortsBy(sort, key) && Distinct(Map(key, a))
    ensures sort(a) == sort(b) <==> multiset(a) == multiset(b)
  {
    assert multiset(sort(a)) == multiset(a) && multiset(sort(b)) == multiset(b);
    if multiset(a) == multiset(b) {
      SortedStrictly(a, sort(a), key);
      SortedStrictly(a, sort(b), key);
      SortedOnce(sort(a), sort(b), key);
    }
  }

  /** Fingerprints are the same exactly for the same data, in whatever order they were read. */
  lemma {:induction false} SameFingerprintIff<F(!new)>(printing: Printing<F>, a: Snapshot, b: Snapshot)
    requires GoodPrinting(printing) && Keyed(a)
    ensures FingerprintOf(printing, a) == FingerprintOf(printing, b) <==> SameMaster(a, b)
  {
    SameSorted(printing.sortSongs, SongId, a.songs, b.songs);
    SameSorted(printing.sortCharts, ChartId, a.charts, b.charts);
  }

  // ---------- the prepared data ----------

  /** The tables agree, and so do the indexes of songs that are available on both days. */
  ghost predicate Agree(p: Prepared, q: Prepared) {
    && p.versionReleasedAt == q.versionReleasedAt && p.slotIds == q.slotIds
    && p.songs == q.songs && p.charts == q.charts
    && forall id :: id in p.songs && Available(p.songs[id], p.operationalDay)
                    && Available(q.songs[id], q.operationalDay) ==>
         IndexOf(p, p.songs[id].id) == IndexOf(q, q.songs[id].id)
  }

  lemma {:induction false} SongsByIdHold(songs: seq<Song>, i: nat)
    requires DistinctSongs(songs) && i < |songs|
    ensures songs[i].id in SongsById(songs) && SongsById(songs)[songs[i].id] == songs[i]
    decreases |songs|
  {
    if i < |songs| - 1 {
      SongsByIdHold(songs[..|songs| - 1], i);
    }
  }

  lemma {:induction false} SameSongs(a: seq<Song>, b: seq<Song>)
    requires DistinctSongs(a) && DistinctSongs(b) && multiset(a) == multiset(b)
    ensures SongsById(a) == SongsById(b)
  {
    forall id | id in SongsById(a) ensures id in SongsById(b) && SongsById(b)[id] == SongsById(a)[id] {
      SongFoundToo(a, b, id);
    }
    forall id | id in SongsById(b) ensures id in SongsById(a) {
      SongFoundToo(b, a, id);
    }
  }

  lemma {:induction false} SongFoundToo(a: seq<Song>, b: seq<Song>, id: int)
    requires DistinctSongs(b) && multiset(a) == multiset(b) && id in SongsById(a)
    ensures id in SongsById(b) && SongsById(b)[id] == SongsById(a)[id]
  {
    var i := SongsByIdAre(a, id);
    assert a[i] in multiset(b);
    var j :| 0 <= j < |b| && b[j] == a[i];
    SongsByIdHold(b, j);
  }

  /** The chart a row is prepared to. */
  function ChartOf(row: ChartRow): Option<Chart> {
    match NewChartConstant(row.chartConst)
    case None => None
    case Some(tenths) => Some(Chart(row.id, row.songId, row.difficultyName, tenths))
  }

  lemma {:induction false} ChartsByIdAre(charts: seq<ChartRow>, id: int) returns (i: nat)
    requires id in ChartsById(charts)
    ensures i < |charts| && charts[i].id == id && ChartOf(charts[i]) == Some(ChartsById(charts)[id])
  {
    var n := |charts| - 1;
    if charts[n].id == id && ChartOf(charts[n]).Some? {
      i := n;
    } else {
      i := ChartsByIdAre(charts[..n], id);
    }
  }

  lemma {:induction false} ChartsByIdHold(charts: seq<ChartRow>, i: nat)
    requires Distinct(Map(ChartId, charts)) && i < |charts| && ChartOf(charts[i]).Some?
    ensures charts[i].id in ChartsById(charts) && Some(ChartsById(charts)[charts[i].id]) == ChartOf(charts[i])
    decreases |charts|
  {
    var n := |charts| - 1;
    if i < n {
      assert Map(ChartId, charts[..n]) == Map(ChartId, charts)[..n];
      assert Map(ChartId, charts)[i] != Map(ChartId, charts)[n];
      ChartsByIdHold(charts[..n], i);
    }
  }

  lemma {:induction false} ChartFoundToo(a: seq<ChartRow>, b: seq<ChartRow>, id: int)
    requires Distinct(Map(ChartId, b)) && multiset(a) == multiset(b) && id in ChartsById(a)
    ensures id in ChartsById(b) && ChartsById(b)[id] == ChartsById(a)[id]
  {
    var i := ChartsByIdAre(a, id);
    assert a[i] in multiset(b);
    var j :| 0 <= j < |b| && b[j] == a[i];
    ChartsByIdHold(b, j);
  }

  lemma {:induction false} SameCharts(a: seq<ChartRow>, b: seq<ChartRow>)
    requires Distinct(Map(ChartId, a)) && Distinct(Map(ChartId, b)) && multiset(a) == multiset(b)
    ensures ChartsById(a) == ChartsById(b)
  {
    forall id | id in ChartsById(a) ensures id in ChartsById(b) && ChartsById(b)[id] == ChartsById(a)[id] {
      ChartFoundToo(a, b, id);
    }
    forall id | id in ChartsById(b) ensures id in ChartsById(a) {
      ChartFoundToo(b, a, id);
    }
  }

  lemma {:induction false} SameMasterAgrees(a: Snapshot, p: Prepared, from: int, b: Snapshot, q: Prepared, to: int)
    requires Keyed(a) && Keyed(b) && SameMaster(a, b)
    requires PreparedFrom(p, a, from) && PreparedFrom(q, b, to)
    ensures Agree(p, q)
  {
    SameSongs(a.songs, b.songs);
    SameCharts(a.charts, b.charts);
    forall id | id in p.songs && Available(p.songs[id], from) && Available(q.songs[id], to)
      ensures IndexOf(p, p.songs[id].id) == IndexOf(q, q.songs[id].id)
    {
      RatedSongsHaveOwnIndex(a, p, id, id);
      RatedSongsHaveOwnIndex(b, q, id, id);
      var i := SongsByIdAre(a.songs, id);
    }
  }

  // ---------- the update ----------

  /** The songs of these records are available on both days or on neither. */
  ghost predicate SameEligible(p: Prepared, q: Prepared, records: seq<Record>) {
    forall i :: 0 <= i < |records| ==> (Eligible(p, records[i]) <==> Eligible(q, records[i]))
  }

  lemma {:induction false} SameRecord(p: Prepared, q: Prepared, lockedSongs: seq<LockedSong>, record: Record)
    requires Agree(p, q) && (Eligible(p, record) <==> Eligible(q, record))
    ensures Problem(p, record) == Problem(q, record)
    ensures forall pool :: InPool(p, record, pool) <==> InPool(q, record, pool)
    ensures Eligible(p, record) ==> RatingRecordOf(p, record) == RatingRecordOf(q, record)
    ensures CountsForOverpower(p, lockedSongs, record) <==> CountsForOverpower(q, lockedSongs, record)
    ensures Problem(p, record).None? ==> OverpowerRecordOf(p, record) == OverpowerRecordOf(q, record)
  {
  }

  lemma {:induction false} SamePools(p: Prepared, q: Prepared, lockedSongs: seq<LockedSong>, records: seq<Record>)
    requires Agree(p, q) && SameEligible(p, q, records)
    ensures forall pool :: PoolOf(p, records, pool) == PoolOf(q, records, pool)
    ensures OverpowerRecords(p, lockedSongs, records) == OverpowerRecords(q, lockedSongs, records)
    ensures Resolvable(p, records) == Resolvable(q, records)
  {
    if records != [] {
      var n := |records| - 1;
      SamePools(p, q, lockedSongs, records[..n]);
      SameRecord(p, q, lockedSongs, records[n]);
    }
  }

  lemma {:induction false} SameUpdate(services: Services, p: Prepared, q: Prepared, player: Player, current: bool)
    requires Agree(p, q) && SameEligible(p, q, player.records)
    ensures UpdateOf(services, p, player, current) == UpdateOf(services, q, player, current)
  {
    SamePools(p, q, player.lockedSongs, player.records);
    var n := Resolvable(p, player.records);
    assert SomeEligible(p, player.records, n) <==> SomeEligible(q, player.records, n);
  }

  // ---------- leaving players out ----------

  ghost function Stored(p: Prepared, player: Player, update: Update): Player {
    player.(records := Applied(p.slotIds, player.records, update.diff))
  }

  /** Once the update is stored, the later recalculation would clear nothing, assign nothing, find
      nothing broken and give the same ratings and OVER POWER. */
  ghost predicate MayBeLeftOut(services: Services, p: Prepared, q: Prepared, player: Player, current: bool) {
    var (first, _) := UpdateOf(services, p, player, current);
    first.Ok? ==>
      UpdateOf(services, q, Stored(p, player, first.value), current) == (Ok(first.value.(diff := Diff([], []))), false)
  }

  /** The song becomes available after the first day, by the second. */
  predicate Opens(song: Song, from: int, to: int) {
    !song.isDeleted && !song.isWorldsend && song.releasedAt.Some? && from < song.releasedAt.value <= to
  }

  predicate OpensFor(p: Prepared, q: Prepared, chartId: int) {
    && chartId in p.charts && p.charts[chartId].songId in p.songs
    && Opens(p.songs[p.charts[chartId].songId], p.operationalDay, q.operationalDay)
  }

  lemma {:induction false} EligibleUnlessOpens(p: Prepared, q: Prepared, record: Record)
    requires Agree(p, q) && p.operationalDay <= q.operationalDay
    ensures (Eligible(p, record) <==> Eligible(q, record)) <==> !OpensFor(p, q, record.chartId)
  {
  }

  lemma {:induction false} StoredSlotsOnly(services: Services, p: Prepared, player: Player, current: bool)
    requires GoodMaster(services, p) && DistinctCharts(player.records)
    requires UpdateOf(services, p, player, current).0.Ok?
    ensures var after := Stored(p, player, UpdateOf(services, p, player, current).0.value).records;
      SlotsOnly(after, player.records)
  {
    var first := UpdateOf(services, p, player, current).0.value;
    if first.diff == Diff([], []) {
      AppliedNothing(p.slotIds, player.records);
    } else {
      var after := RebuildIsStored(services, p, player.records);
    }
  }

  /** A player none of whose records is of a song that became available may be left out. */
  lemma {:induction false} LeftOutRightly(services: Services, p: Prepared, q: Prepared, player: Player, current: bool)
    requires GoodMaster(services, p) && Agree(p, q) && p.operationalDay <= q.operationalDay
    requires DistinctCharts(player.records)
    requires forall i :: 0 <= i < |player.records| ==> !OpensFor(p, q, player.records[i].chartId)
    ensures MayBeLeftOut(services, p, q, player, current)
  {
    var (first, _) := UpdateOf(services, p, player, current);
    if first.Ok? {
      var after := Stored(p, player, first.value);
      SecondRunChangesNothing(services, p, player, current);
      StoredSlotsOnly(services, p, player, current);
      forall i | 0 <= i < |after.records|
        ensures Eligible(p, after.records[i]) <==> Eligible(q, after.records[i])
      {
        EligibleUnlessOpens(p, q, after.records[i]);
      }
      SameUpdate(services, p, q, after, current);
    }
  }

  /** A player whose only record is on the chart. */
  function Newcomer(chartId: int): Player {
    Player([Record(chartId, 0, 0, "none", None)], [])
  }

  lemma {:induction false} NothingToPlace(services: Services, p: Prepared, records: seq<Record>)
    requires IsSort(services.sort) && !SomeEligible(p, records, |records|)
    ensures Targets(Groups(services, p, records)) == []
  {
    var groups := Groups(services, p, records);
    assert records[..|records|] == records;
    NothingPooled(p, records, |records|, OldSongs);
    NothingPooled(p, records, |records|, NewSongs);
    GroupsArePart(services, PoolOf(p, records, OldSongs), PoolOf(p, records, NewSongs));
    assert |multiset(RecalculationFixpoint.Listed(groups))| == 0;
    TargetCharts(groups);
  }

  /** Without an available record, nothing is stored in a main slot. */
  lemma {:induction false} NoneRebuilt(services: Services, p: Prepared, player: Player)
    requires GoodMaster(services, p) && DistinctCharts(player.records)
    requires Resolvable(p, player.records) == |player.records|
    requires !SomeEligible(p, player.records, |player.records|)
    ensures NoMainSlots(Stored(p, player, UpdateOf(services, p, player, false).0.value).records)
  {
    var after := RebuildIsStored(services, p, player.records);
    NothingToPlace(services, p, player.records);
    forall i | 0 <= i < |after| ensures after[i].slotName != "best" && after[i].slotName != "new" {
      assert InPlace(after[i], []);
    }
  }

  /** With an available record, main slots that are empty do not stay as they are. */
  lemma {:induction false} SomeRebuilt(services: Services, q: Prepared, records: seq<Record>)
    requires GoodMaster(services, q) && DistinctCharts(records)
    requires NoMainSlots(records) && SomeEligible(q, records, |records|)
    ensures DiffOf(q.slotIds, records, Groups(services, q, records)) != Diff([], [])
  {
    var after := RebuildIsStored(services, q, records);
    if DiffOf(q.slotIds, records, Groups(services, q, records)) == Diff([], []) {
      AppliedNothing(q.slotIds, records);
      MainSlotsFilled(services, q, records, after);
    }
  }

  lemma {:induction false} SlotsDoNotResolve(p: Prepared, after: seq<Record>, records: seq<Record>)
    requires SlotsOnly(after, records)
    ensures Resolvable(p, after) == Resolvable(p, records)
    ensures SomeEligible(p, after, |after|) <==> SomeEligible(p, records, |records|)
  {
    SlotsDoNotMatter(p, [], after, records);
    forall i | 0 <= i < |after| ensures Eligible(p, after[i]) <==> Eligible(p, records[i]) {
      SameButSlots(p, [], after[i], records[i]);
    }
  }

  /** A legacy player must not be left out whose first available songs opened since. */
  lemma {:induction false} FirstSongsOpened(services: Services, p: Prepared, q: Prepared, player: Player)
    requires GoodMaster(services, p) && GoodMaster(services, q) && DistinctCharts(player.records)
    requires Resolvable(p, player.records) == Resolvable(q, player.records) == |player.records|
    requires !SomeEligible(p, player.records, |player.records|) && SomeEligible(q, player.records, |player.records|)
    ensures !MayBeLeftOut(services, p, q, player, false)
  {
    var after := Stored(p, player, UpdateOf(services, p, player, false).0.value);
    NoneRebuilt(services, p, player);
    StoredSlotsOnly(services, p, player, false);
    SlotsDoNotResolve(q, after.records, player.records);
    SomeRebuilt(services, q, after.records);
  }

  lemma {:induction false} NewcomerNotLeftOut(services: Services, p: Prepared, q: Prepared, chartId: int)
    requires GoodMaster(services, p) && Agree(p, q) && OpensFor(p, q, chartId)
    ensures DistinctCharts(Newcomer(chartId).records)
    ensures !MayBeLeftOut(services, p, q, Newcomer(chartId), false)
  {
    var player := Newcomer(chartId);
    assert Problem(p, player.records[0]).None? && Eligible(q, player.records[0]);
    FirstSongsOpened(services, p, q, player);
  }

  /** With the same fingerprint, leaving out every player recalculated on the earlier day is right
      exactly if no song with a chart became available since, whatever the players have played. */
  lemma {:induction false} LeavingOutIsRightIff<F(!new)>(
    services: Services, printing: Printing<F>, a: Snapshot, p: Prepared, from: int, b: Snapshot, q: Prepared, to: int)
    requires IsSort(services.sort) && OneSlotPerId(a.slotIds) && GoodPrinting(printing)
    requires Keyed(a) && Keyed(b) && FingerprintOf(printing, a) == FingerprintOf(printing, b)
    requires PreparedFrom(p, a, from) && PreparedFrom(q, b, to) && from <= to
    ensures (forall player: Player, current ::
               DistinctCharts(player.records) ==> MayBeLeftOut(services, p, q, player, current))
       <==> forall chartId :: !OpensFor(p, q, chartId)
  {
    SameFingerprintIff(printing, a, b);
    SameMasterAgrees(a, p, from, b, q, to);
    if forall chartId :: !OpensFor(p, q, chartId) {
      forall player: Player, current | DistinctCharts(player.records)
        ensures MayBeLeftOut(services, p, q, player, current)
      {
        LeftOutRightly(services, p, q, player, current);
      }
    } else {
      var chartId :| OpensFor(p, q, chartId);
      NewcomerNotLeftOut(services, p, q, chartId);
    }
  }

  lemma {:induction false} SettledOutcome(services: Services, q: Prepared, key: Key, row: Row, update: Update)
    requires UpdateOf(services, q, row.player, IsCurrent(q, row.lastPlayedAt)) == (Ok(update), false)
    requires update.diff == Diff([], []) && row.collectedAt == key.collectedAt
    ensures var current := IsCurrent(q, row.lastPlayedAt);
      OutcomeOf(services, q, key, Found(row), true)
      == Saved(if current then CurrentPreserved else LegacyRebuilt, !current, update)
  {
  }

  /** A player left out would count as preserved, or as legacy with unchanged slots. */
  lemma {:induction false} LeftOutPlayersAreSettled(services: Services, p: Prepared, q: Prepared, key: Key, row: Row)
    requires GoodMaster(services, p) && Agree(p, q) && p.operationalDay <= q.operationalDay
    requires DistinctCharts(row.player.records)
    requires forall i :: 0 <= i < |row.player.records| ==> !OpensFor(p, q, row.player.records[i].chartId)
    requires OutcomeOf(services, p, key, Found(row), true).Saved?
    ensures var current := IsCurrent(p, row.lastPlayedAt);
      var update := UpdateOf(services, p, row.player, current).0.value;
      OutcomeOf(services, q, key, Found(row.(player := Stored(p, row.player, update))), true)
      == Saved(if current then CurrentPreserved else LegacyRebuilt, !current, update.(diff := Diff([], [])))
  {
    var current := IsCurrent(p, row.lastPlayedAt);
    var update := UpdateOf(services, p, row.player, current).0.value;
    var stored := Stored(p, row.player, update);
    LeftOutRightly(services, p, q, row.player, current);
    assert UpdateOf(services, q, stored, current) == (Ok(update.(diff := Diff([], []))), false);
    assert IsCurrent(q, row.lastPlayedAt) == current;
    SettledOutcome(services, q, key, row.(player := stored), update.(diff := Diff([], [])));
  }
}
