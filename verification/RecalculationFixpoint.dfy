/** A recalculation is final: with the same master data a second one changes nothing. */
module RecalculationFixpoint {
  import opened Common
  import opened Sequences
  import opened RatingSlots
  import opened SlotDiff
  import opened OfficialSlots
  import opened RecalculationMaster
  import opened Recalculation

  /** Only slots differ. */
  ghost predicate SlotsOnly(a: seq<Record>, b: seq<Record>) {
    |a| == |b|
    && forall i :: 0 <= i < |a| ==> a[i] == b[i].(slotName := a[i].slotName, slotOrder := a[i].slotOrder)
  }

  lemma {:induction false} SameButSlots(p: Prepared, lockedSongs: seq<LockedSong>, a: Record, b: Record)
    requires a == b.(slotName := a.slotName, slotOrder := a.slotOrder)
    ensures Problem(p, a) == Problem(p, b) && Eligible(p, a) == Eligible(p, b)
    ensures CountsForOverpower(p, lockedSongs, a) == CountsForOverpower(p, lockedSongs, b)
    ensures Problem(p, a).None? ==>
      RatingRecordOf(p, a) == RatingRecordOf(p, b) && OverpowerRecordOf(p, a) == OverpowerRecordOf(p, b)
    ensures InPool(p, a, OldSongs) == InPool(p, b, OldSongs) && InPool(p, a, NewSongs) == InPool(p, b, NewSongs)
  {
  }

  lemma {:induction false} SlotsDoNotMatter(p: Prepared, lockedSongs: seq<LockedSong>, a: seq<Record>, b: seq<Record>)
    requires SlotsOnly(a, b)
    ensures PoolOf(p, a, OldSongs) == PoolOf(p, b, OldSongs)
    ensures PoolOf(p, a, NewSongs) == PoolOf(p, b, NewSongs)
    ensures OverpowerRecords(p, lockedSongs, a) == OverpowerRecords(p, lockedSongs, b)
    ensures Resolvable(p, a) == Resolvable(p, b)
  {
    if a != [] {
      var n := |a| - 1;
      SlotsDoNotMatter(p, lockedSongs, a[..n], b[..n]);
      SameButSlots(p, lockedSongs, a[n], b[n]);
    }
  }

  // ---------- the pools ----------

  function Keys(records: seq<RatingRecord>): (keys: seq<int>)
    ensures |keys| == |records| && forall i :: 0 <= i < |keys| ==> keys[i] == records[i].chartId
  {
    Map((record: RatingRecord) => record.chartId, records)
  }

  ghost predicate FromRecord(p: Prepared, records: seq<Record>, pool: Pool, x: RatingRecord, i: nat)
    requires i < |records|
  {
    InPool(p, records[i], pool) && x == RatingRecordOf(p, records[i])
  }

  lemma {:induction false} PoolMember(p: Prepared, records: seq<Record>, pool: Pool, x: RatingRecord) returns (i: nat)
    requires x in PoolOf(p, records, pool)
    ensures i < |records| && FromRecord(p, records, pool, x, i)
  {
    var n := |records| - 1;
    if x in PoolOf(p, records[..n], pool) {
      i := PoolMember(p, records[..n], pool, x);
    } else {
      i := n;
    }
  }

  lemma {:induction false} PoolHolds(p: Prepared, records: seq<Record>, pool: Pool, i: nat)
    requires i < |records| && InPool(p, records[i], pool)
    ensures RatingRecordOf(p, records[i]) in PoolOf(p, records, pool)
    decreases |records|
  {
    var n := |records| - 1;
    if i < n {
      PoolHolds(p, records[..n], pool, i);
    }
  }

  lemma {:induction false} PoolKeysDistinct(p: Prepared, records: seq<Record>, pool: Pool)
    requires DistinctCharts(records)
    ensures Distinct(Keys(PoolOf(p, records, pool)))
  {
    if records != [] {
      var n := |records| - 1;
      PoolKeysDistinct(p, records[..n], pool);
      var before := PoolOf(p, records[..n], pool);
      forall k | 0 <= k < |before| ensures before[k].chartId != records[n].chartId {
        var i := PoolMember(p, records[..n], pool, before[k]);
        assert records[..n][i] == records[i];
      }
    }
  }

  lemma {:induction false} SameChartSameRecord(records: seq<Record>, i: nat, j: nat)
    requires DistinctCharts(records) && i < |records| && j < |records| && records[i].chartId == records[j].chartId
    ensures i == j
  {
  }

  lemma {:induction false} BothPoolsDistinct(p: Prepared, records: seq<Record>)
    requires DistinctCharts(records)
    ensures Distinct(Keys(PoolOf(p, records, OldSongs) + PoolOf(p, records, NewSongs)))
  {
    var old_, new_ := PoolOf(p, records, OldSongs), PoolOf(p, records, NewSongs);
    PoolKeysDistinct(p, records, OldSongs);
    PoolKeysDistinct(p, records, NewSongs);
    forall a, b | 0 <= a < |old_| && 0 <= b < |new_| ensures old_[a].chartId != new_[b].chartId {
      var i := PoolMember(p, records, OldSongs, old_[a]);
      var j := PoolMember(p, records, NewSongs, new_[b]);
      if records[i].chartId == records[j].chartId {
        SameChartSameRecord(records, i, j);
        assert false;
      }
    }
    JoinKeys(old_, new_);
  }

  lemma {:induction false} JoinKeys(a: seq<RatingRecord>, b: seq<RatingRecord>)
    requires Distinct(Keys(a)) && Distinct(Keys(b))
    requires forall i, j :: 0 <= i < |a| && 0 <= j < |b| ==> a[i].chartId != b[j].chartId
    ensures Distinct(Keys(a + b))
  {
  }

  lemma {:induction false} KeysDistinctThenDistinct(records: seq<RatingRecord>)
    requires Distinct(Keys(records))
    ensures Distinct(records)
  {
  }

  /** A part of records with distinct charts has distinct charts. */
  lemma {:induction false} PartHasDistinctKeys(part: seq<RatingRecord>, all: seq<RatingRecord>)
    requires multiset(part) <= multiset(all) && Distinct(Keys(all))
    ensures Distinct(Keys(part))
  {
    KeysDistinctThenDistinct(all);
    forall x | x in part ensures multiset(part)[x] <= 1 {
      DistinctCount(all, x);
    }
    DistinctByCount(part);
    forall a, b | 0 <= a < b < |part| ensures Keys(part)[a] != Keys(part)[b] {
      assert part[a] in multiset(all) && part[b] in multiset(all);
      var i :| 0 <= i < |all| && all[i] == part[a];
      var j :| 0 <= j < |all| && all[j] == part[b];
      assert i != j;
      assert Keys(all)[i] != Keys(all)[j];
    }
  }

  // ---------- the targets of a rebuild ----------

  function Listed(groups: seq<SlotGroup>): seq<RatingRecord> {
    if groups == [] then [] else Listed(groups[..|groups| - 1]) + groups[|groups| - 1].records
  }

  lemma {:induction false} TargetCharts(groups: seq<SlotGroup>)
    ensures |Targets(groups)| == |Listed(groups)|
    ensures forall i :: 0 <= i < |Listed(groups)| ==> Targets(groups)[i].chartId == Listed(groups)[i].chartId
  {
    if groups != [] {
      TargetCharts(groups[..|groups| - 1]);
    }
  }

  /** A target is a place in a group. */
  ghost predicate PlaceIn(group: SlotGroup, t: Target) {
    && t.name == group.name
    && 1 <= t.position <= |group.records|
    && group.records[t.position - 1].chartId == t.chartId
  }

  lemma {:induction false} PlaceInOne(group: SlotGroup, t: Target)
    ensures t in TargetsOf(group) <==> PlaceIn(group, t)
  {
    if PlaceIn(group, t) {
      assert TargetsOf(group)[t.position - 1] == t;
    }
  }

  ghost predicate PlaceInSome(groups: seq<SlotGroup>, t: Target) {
    exists g :: 0 <= g < |groups| && PlaceIn(groups[g], t)
  }

  lemma {:induction false} PlaceInSnoc(groups: seq<SlotGroup>, group: SlotGroup, t: Target)
    ensures PlaceInSome(groups + [group], t) <==> PlaceInSome(groups, t) || PlaceIn(group, t)
  {
    var all := groups + [group];
    if PlaceInSome(groups, t) {
      var g :| 0 <= g < |groups| && PlaceIn(groups[g], t);
      assert all[g] == groups[g];
    }
    assert all[|groups|] == group;
  }

  lemma {:induction false} TargetPlace(groups: seq<SlotGroup>, t: Target)
    ensures t in Targets(groups) <==> PlaceInSome(groups, t)
  {
    if groups != [] {
      var init, last := groups[..|groups| - 1], groups[|groups| - 1];
      TargetPlace(init, t);
      PlaceInOne(last, t);
      assert groups == init + [last];
      PlaceInSnoc(init, last, t);
    }
  }

  /** The groups of a rebuild take disjoint parts of the two pools. */
  lemma {:induction false} GroupsArePart(services: Services, best: seq<RatingRecord>, new_: seq<RatingRecord>)
    requires IsSort(services.sort)
    ensures multiset(Listed(RebuiltGroups(services, best, new_))) <= multiset(best + new_)
  {
    var g := RebuiltGroups(services, best, new_);
    SlotsArePart(services.sort, best, BEST_MAX, CANDIDATE_MAX);
    SlotsArePart(services.sort, new_, NEW_MAX, CANDIDATE_MAX);
    ListedFour(g);
  }

  lemma {:induction false} ListedFour(g: seq<SlotGroup>)
    requires |g| == 4
    ensures Listed(g) == g[0].records + g[1].records + g[2].records + g[3].records
  {
    assert g[..3][..2] == g[..2] && g[..2][..1] == g[..1] && g[..1][..0] == [];
    assert Listed(g[..1]) == g[0].records;
    assert Listed(g[..2]) == Listed(g[..1]) + g[1].records;
    assert Listed(g[..3]) == Listed(g[..2]) + g[2].records;
  }

  ghost predicate GoodMaster(services: Services, p: Prepared) {
    IsSort(services.sort) && OneSlotPerId(p.slotIds) && SlotsPresent(p.slotIds)
  }

  lemma {:induction false} TargetHasRecord(p: Prepared, records: seq<Record>, groups: seq<SlotGroup>, t: Target)
    requires t in Targets(groups)
    requires multiset(Listed(groups)) <= multiset(PoolOf(p, records, OldSongs) + PoolOf(p, records, NewSongs))
    ensures exists i :: 0 <= i < |records| && records[i].chartId == t.chartId
  {
    var best, new_ := PoolOf(p, records, OldSongs), PoolOf(p, records, NewSongs);
    TargetCharts(groups);
    var k :| 0 <= k < |Targets(groups)| && Targets(groups)[k] == t;
    var x := Listed(groups)[k];
    assert x in multiset(best + new_);
    var i := PoolMember(p, records, if x in best then OldSongs else NewSongs, x);
    assert records[i].chartId == t.chartId;
  }

  lemma {:induction false} TargetHasSlot(slotIds: SlotIds, groups: seq<SlotGroup>, t: Target)
    requires t in Targets(groups) && forall g :: 0 <= g < |groups| ==> groups[g].name in slotIds
    ensures t.name in slotIds
  {
    TargetPlace(groups, t);
    var g :| 0 <= g < |groups| && PlaceIn(groups[g], t);
  }

  lemma {:induction false} GroupNamesKnown(services: Services, p: Prepared, records: seq<Record>)
    requires SlotsPresent(p.slotIds)
    ensures forall g :: 0 <= g < 4 ==> Groups(services, p, records)[g].name in p.slotIds
  {
  }

  lemma {:induction false} TargetsAreGood(services: Services, p: Prepared, records: seq<Record>)
    requires GoodMaster(services, p) && DistinctCharts(records)
    ensures var targets := Targets(Groups(services, p, records));
      && DistinctTargets(targets) && Known(p.slotIds, targets)
      && forall t :: t in targets ==> exists i :: 0 <= i < |records| && records[i].chartId == t.chartId
  {
    var groups := Groups(services, p, records);
    var targets, listed := Targets(groups), Listed(groups);
    GroupsArePart(services, PoolOf(p, records, OldSongs), PoolOf(p, records, NewSongs));
    BothPoolsDistinct(p, records);
    PartHasDistinctKeys(listed, PoolOf(p, records, OldSongs) + PoolOf(p, records, NewSongs));
    TargetCharts(groups);
    GroupNamesKnown(services, p, records);
    forall i, j | 0 <= i < j < |targets| ensures targets[i].chartId != targets[j].chartId {
      assert Keys(listed)[i] != Keys(listed)[j];
    }
    forall t | t in targets
      ensures t.name in p.slotIds && exists i :: 0 <= i < |records| && records[i].chartId == t.chartId
    {
      TargetHasRecord(p, records, groups, t);
      TargetHasSlot(p.slotIds, groups, t);
    }
  }

  // ---------- the stored slots of a rebuild ----------

  /** The records as they are after storing the rebuilt slots. */
  ghost predicate RebuildStored(records: seq<Record>, after: seq<Record>, groups: seq<SlotGroup>) {
    && SlotsOnly(after, records) && DistinctCharts(records)
    && |groups| == 4 && DistinctTargets(Targets(groups))
    && groups[0].name == "best" && groups[1].name == "best_candidate"
    && groups[2].name == "new" && groups[3].name == "new_candidate"
    && forall i :: 0 <= i < |after| ==> InPlace(after[i], Targets(groups))
  }

  lemma {:induction false} RebuildIsStored(
      services: Services, p: Prepared, records: seq<Record>) returns (after: seq<Record>)
    requires GoodMaster(services, p) && DistinctCharts(records)
    ensures after == Applied(p.slotIds, records, DiffOf(p.slotIds, records, Groups(services, p, records)))
    ensures RebuildStored(records, after, Groups(services, p, records))
  {
    var groups := Groups(services, p, records);
    after := Applied(p.slotIds, records, DiffOf(p.slotIds, records, groups));
    TargetsAreGood(services, p, records);
    DiffReachesTargets(p.slotIds, records, groups);
    forall i | 0 <= i < |after|
      ensures after[i] == records[i].(slotName := after[i].slotName, slotOrder := after[i].slotOrder)
    {
      assert after[i].(slotName := records[i].slotName, slotOrder := records[i].slotOrder) == records[i];
    }
  }

  lemma {:induction false} StoredKeepsCharts(records: seq<Record>, after: seq<Record>, groups: seq<SlotGroup>)
    requires RebuildStored(records, after, groups)
    ensures DistinctCharts(after)
  {
  }

  /** A stored main slot is a place in its group. */
  lemma {:induction false} SlotIsPlace(records: seq<Record>, after: seq<Record>, groups: seq<SlotGroup>, g: nat, i: nat)
    requires RebuildStored(records, after, groups) && g < 4
    requires i < |after| && after[i].slotName == groups[g].name
    ensures after[i].slotOrder.Some?
    ensures PlaceIn(groups[g], Target(after[i].chartId, after[i].slotName, after[i].slotOrder.value))
  {
    assert InPlace(after[i], Targets(groups));
    var t := Target(after[i].chartId, after[i].slotName, after[i].slotOrder.value);
    TargetPlace(groups, t);
    var h :| 0 <= h < 4 && PlaceIn(groups[h], t);
  }

  lemma {:induction false} RebuiltSlotSetOk(
      records: seq<Record>, after: seq<Record>, groups: seq<SlotGroup>, g: nat, limit: nat)
    requires RebuildStored(records, after, groups) && (g == 0 || g == 2) && |groups[g].records| <= limit
    ensures SlotSetOk(Entries(after), groups[g].name, limit)
  {
    var entries, name := Entries(after), groups[g].name;
    forall i | 0 <= i < |entries| && entries[i].slotName == name
      ensures OrderInRange(entries[i].slotOrder, limit)
    {
      SlotIsPlace(records, after, groups, g, i);
    }
    forall i, j | 0 <= i < j < |entries| && entries[i].slotName == name && entries[j].slotName == name
      ensures entries[i].slotOrder != entries[j].slotOrder
    {
      SlotIsPlace(records, after, groups, g, i);
      SlotIsPlace(records, after, groups, g, j);
      assert records[i].chartId != records[j].chartId;
    }
  }

  lemma {:induction false} PlaceIsSlot(
      records: seq<Record>, after: seq<Record>, groups: seq<SlotGroup>, g: nat, k: nat, j: nat)
    requires RebuildStored(records, after, groups) && g < 4 && k < |groups[g].records|
    requires j < |records| && records[j].chartId == groups[g].records[k].chartId
    ensures after[j].slotName == groups[g].name && after[j].slotOrder == Some(k + 1)
  {
    var t := Target(groups[g].records[k].chartId, groups[g].name, k + 1);
    TargetPlace(groups, t);
    assert PlaceIn(groups[g], t) && t in Targets(groups);
    assert after[j].chartId == t.chartId && t.chartId in ChartsOf(Targets(groups));
    assert InPlace(after[j], Targets(groups));
    SameTarget(Targets(groups), t, Target(after[j].chartId, after[j].slotName, after[j].slotOrder.value));
  }

  /** What the stored main slot holds is what the rebuild put there. */
  lemma {:induction false} KeptIsMain(
    p: Prepared, records: seq<Record>, after: seq<Record>, groups: seq<SlotGroup>, g: nat, from: Pool, kept: Pool)
    requires RebuildStored(records, after, groups)
    requires (g == 0 && from == OldSongs && kept == KeptBest) || (g == 2 && from == NewSongs && kept == KeptNew)
    requires multiset(groups[g].records) <= multiset(PoolOf(p, records, from))
    ensures multiset(PoolOf(p, after, kept)) == multiset(groups[g].records)
  {
    var stored, main := PoolOf(p, after, kept), groups[g].records;
    StoredKeepsCharts(records, after, groups);
    PoolKeysDistinct(p, after, kept);
    KeysDistinctThenDistinct(stored);
    PoolKeysDistinct(p, records, from);
    PartHasDistinctKeys(main, PoolOf(p, records, from));
    KeysDistinctThenDistinct(main);
    forall x | x in stored ensures x in main {
      StoredIsMain(p, records, after, groups, g, from, kept, x);
    }
    forall x | x in main ensures x in stored {
      MainIsStored(p, records, after, groups, g, from, kept, x);
    }
    SameElements(stored, main);
  }

  lemma {:induction false} StoredIsMain(
    p: Prepared, records: seq<Record>, after: seq<Record>, groups: seq<SlotGroup>, g: nat, from: Pool, kept: Pool,
    x: RatingRecord)
    requires RebuildStored(records, after, groups)
    requires (g == 0 && from == OldSongs && kept == KeptBest) || (g == 2 && from == NewSongs && kept == KeptNew)
    requires multiset(groups[g].records) <= multiset(PoolOf(p, records, from))
    requires x in PoolOf(p, after, kept)
    ensures x in groups[g].records
  {
    var i := PoolMember(p, after, kept, x);
    SlotIsPlace(records, after, groups, g, i);
    var y := groups[g].records[after[i].slotOrder.value - 1];
    assert y in multiset(PoolOf(p, records, from));
    var j := PoolMember(p, records, from, y);
    assert after[i] == records[i].(slotName := after[i].slotName, slotOrder := after[i].slotOrder);
    assert records[i].chartId == after[i].chartId == y.chartId == records[j].chartId;
    SameChartSameRecord(records, i, j);
    SameButSlots(p, [], after[i], records[i]);
  }

  lemma {:induction false} MainIsStored(
    p: Prepared, records: seq<Record>, after: seq<Record>, groups: seq<SlotGroup>, g: nat, from: Pool, kept: Pool,
    x: RatingRecord)
    requires RebuildStored(records, after, groups)
    requires (g == 0 && from == OldSongs && kept == KeptBest) || (g == 2 && from == NewSongs && kept == KeptNew)
    requires multiset(groups[g].records) <= multiset(PoolOf(p, records, from))
    requires x in groups[g].records
    ensures x in PoolOf(p, after, kept)
  {
    assert x in multiset(PoolOf(p, records, from));
    var j := PoolMember(p, records, from, x);
    var k :| 0 <= k < |groups[g].records| && groups[g].records[k] == x;
    PlaceIsSlot(records, after, groups, g, k, j);
    SameButSlots(p, [], after[j], records[j]);
    PoolHolds(p, after, kept, j);
  }

  /** If any record could be in a main slot, the rebuild puts one there. */
  lemma {:induction false} MainSlotsFilled(services: Services, p: Prepared, records: seq<Record>, after: seq<Record>)
    requires IsSort(services.sort) && RebuildStored(records, after, Groups(services, p, records))
    requires SomeEligible(p, after, |after|)
    ensures !NoMainSlots(after)
  {
    var i :| 0 <= i < |after| && Eligible(p, after[i]);
    SameButSlots(p, [], after[i], records[i]);
    var isNew := IsNewSong(p, SongOf(p, records[i]));
    var pool := if isNew then NewSongs else OldSongs;
    var g := if isNew then 2 else 0;
    var groups := Groups(services, p, records);
    PoolHolds(p, records, pool, i);
    SlotsArePart(services.sort, PoolOf(p, records, pool), if isNew then NEW_MAX else BEST_MAX, CANDIDATE_MAX);
    var x := groups[g].records[0];
    assert x in multiset(groups[g].records);
    var j := PoolMember(p, records, pool, x);
    PlaceIsSlot(records, after, groups, g, 0, j);
  }

  lemma {:induction false} RebuiltIsNotBroken(
      services: Services, p: Prepared, records: seq<Record>, after: seq<Record>, current: bool)
    requires IsSort(services.sort) && RebuildStored(records, after, Groups(services, p, records))
    ensures !Broken(p, after, current, |after|)
  {
    var groups := Groups(services, p, records);
    SlotsArePart(services.sort, PoolOf(p, records, OldSongs), BEST_MAX, CANDIDATE_MAX);
    SlotsArePart(services.sort, PoolOf(p, records, NewSongs), NEW_MAX, CANDIDATE_MAX);
    RebuiltSlotSetOk(records, after, groups, 0, BEST_MAX);
    RebuiltSlotSetOk(records, after, groups, 2, NEW_MAX);
    if SomeEligible(p, after, |after|) {
      MainSlotsFilled(services, p, records, after);
    }
  }

  // ---------- the second run ----------

  lemma {:induction false} AppliedNothing(slotIds: SlotIds, records: seq<Record>)
    ensures Applied(slotIds, records, Diff([], [])) == records
  {
  }

  /** Keeping the slots a rebuild stored gives the ratings of the rebuild. */
  lemma {:induction false} KeptAfterRebuild(services: Services, p: Prepared, player: Player, after: Player)
    requires IsSort(services.sort) && after.lockedSongs == player.lockedSongs
    requires RebuildStored(player.records, after.records, Groups(services, p, player.records))
    ensures Kept(services, p, after) == Rebuilt(services, p, player).(diff := Diff([], []))
  {
    var records, groups := player.records, Groups(services, p, player.records);
    SlotsArePart(services.sort, PoolOf(p, records, OldSongs), BEST_MAX, CANDIDATE_MAX);
    SlotsArePart(services.sort, PoolOf(p, records, NewSongs), NEW_MAX, CANDIDATE_MAX);
    KeptIsMain(p, records, after.records, groups, 0, OldSongs, KeptBest);
    KeptIsMain(p, records, after.records, groups, 2, NewSongs, KeptNew);
    StatsOfPermutation(
      PoolOf(p, after.records, KeptBest), PoolOf(p, after.records, KeptNew), groups[0].records, groups[2].records);
    SlotsDoNotMatter(p, player.lockedSongs, after.records, records);
  }

  lemma {:induction false} RebuiltAgain(services: Services, p: Prepared, player: Player, after: Player)
    requires GoodMaster(services, p) && after.lockedSongs == player.lockedSongs
    requires RebuildStored(player.records, after.records, Groups(services, p, player.records))
    ensures Rebuilt(services, p, after) == Rebuilt(services, p, player).(diff := Diff([], []))
  {
    var groups := Groups(services, p, player.records);
    SlotsDoNotMatter(p, player.lockedSongs, after.records, player.records);
    StoredKeepsCharts(player.records, after.records, groups);
    TargetsAreGood(services, p, after.records);
    NothingLeftToDo(p.slotIds, after.records, groups);
  }

  /** Once an update is stored, recalculating with the same master data clears nothing, assigns
      nothing, finds nothing broken and gives the same ratings and OVER POWER, whether the
      player's slots were kept, were rebuilt because they were broken, or are always rebuilt. */
  lemma {:induction false} SecondRunChangesNothing(services: Services, p: Prepared, player: Player, current: bool)
    requires GoodMaster(services, p) && DistinctCharts(player.records)
    requires UpdateOf(services, p, player, current).0.Ok?
    ensures var first := UpdateOf(services, p, player, current).0.value;
      var after := player.(records := Applied(p.slotIds, player.records, first.diff));
      UpdateOf(services, p, after, current) == (Ok(first.(diff := Diff([], []))), false)
  {
    var (result, broken) := UpdateOf(services, p, player, current);
    var first := result.value;
    var after := player.(records := Applied(p.slotIds, player.records, first.diff));
    if !current || broken {
      var stored := RebuildIsStored(services, p, player.records);
      assert after.records == stored;
      SlotsDoNotMatter(p, player.lockedSongs, after.records, player.records);
      RebuiltIsNotBroken(services, p, player.records, after.records, current);
      if current {
        KeptAfterRebuild(services, p, player, after);
      } else {
        RebuiltAgain(services, p, player, after);
      }
    } else {
      AppliedNothing(p.slotIds, player.records);
    }
  }

  /** A rebuild gives the highest rating any choice of records for the main slots can give. */
  lemma {:induction false} RebuildMaximisesRating(
    services: Services, p: Prepared, player: Player, best: seq<RatingRecord>, new_: seq<RatingRecord>)
    requires IsSort(services.sort)
    requires multiset(best) <= multiset(PoolOf(p, player.records, OldSongs)) && |best| <= BEST_MAX
    requires multiset(new_) <= multiset(PoolOf(p, player.records, NewSongs)) && |new_| <= NEW_MAX
    ensures OfficialStats(best, new_).player <= Rebuilt(services, p, player).stats.player
  {
    MainSlotsSumMost(services.sort, PoolOf(p, player.records, OldSongs), BEST_MAX, CANDIDATE_MAX, best);
    MainSlotsSumMost(services.sort, PoolOf(p, player.records, NewSongs), NEW_MAX, CANDIDATE_MAX, new_);
  }
}
