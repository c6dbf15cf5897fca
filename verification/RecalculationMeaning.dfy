/** What an update stores for a player, in release days, scores and constants: which records are
    in which slot, at which place, and what the ratings are averages of. */
module RecalculationMeaning {
  import opened Common
  import opened Sequences
  import opened RatingSlots
  import opened SlotDiff
  import opened OfficialSlots
  import opened RecalculationMaster
  import opened Recalculation
  import opened RecalculationFixpoint

  // ---------- the slots of one pool ----------

  lemma {:induction false} SlotsAreOrdered(sort: Sort, records: seq<RatingRecord>, mainLimit: nat, candidateLimit: nat)
    requires IsSort(sort) && mainLimit > 0
    ensures var slots := Slots(sort, records, mainLimit, candidateLimit);
      Ordered(slots.main) && Ordered(slots.candidates)
  {
  }

  /** What is not in the main slots comes after everything that is, and they are full. */
  lemma {:induction false} MainComesFirst(
    sort: Sort, records: seq<RatingRecord>, mainLimit: nat, candidateLimit: nat, x: RatingRecord)
    requires IsSort(sort) && mainLimit > 0 && x in records
    requires x !in Slots(sort, records, mainLimit, candidateLimit).main
    ensures var main := Slots(sort, records, mainLimit, candidateLimit).main;
      && |main| == mainLimit < |sort(records)| && main == sort(records)[..mainLimit]
      && x in sort(records)[mainLimit..]
      && forall m :: m in main ==> MayPrecede(m, x)
  {
    var sorted := sort(records);
    assert x in multiset(sorted);
    var k :| 0 <= k < |sorted| && sorted[k] == x;
    assert sorted[mainLimit..][k - mainLimit] == x;
  }

  ghost predicate Liftable(sort: Sort, records: seq<RatingRecord>, mainLimit: nat, x: RatingRecord)
    requires 0 < mainLimit <= |sort(records)|
  {
    x.score < SSS_PLUS && SingleRating(SSS_PLUS, x.chartConst) > Rating(sort(records)[mainLimit - 1])
  }

  lemma {:induction false} CandidateIsLiftable(
    sort: Sort, records: seq<RatingRecord>, mainLimit: nat, candidateLimit: nat, x: RatingRecord)
    requires IsSort(sort) && mainLimit > 0
    requires x in Slots(sort, records, mainLimit, candidateLimit).candidates
    ensures mainLimit <= |sort(records)| && Liftable(sort, records, mainLimit, x)
  {
    var sorted := sort(records);
    var improvable := Improvable(sorted[mainLimit..], Rating(sorted[mainLimit - 1]));
    assert x in multiset(sort(improvable));
    assert x in improvable;
    ImprovableIff(sorted[mainLimit..], Rating(sorted[mainLimit - 1]), x);
  }

  /** What could be a candidate but is not comes after all that are, and they are full. */
  lemma {:induction false} CandidatesComeFirst(
    sort: Sort, records: seq<RatingRecord>, mainLimit: nat, candidateLimit: nat, x: RatingRecord)
    requires IsSort(sort) && 0 < mainLimit <= |sort(records)| && x in sort(records)[mainLimit..]
    requires Liftable(sort, records, mainLimit, x)
    requires x !in Slots(sort, records, mainLimit, candidateLimit).candidates
    ensures var candidates := Slots(sort, records, mainLimit, candidateLimit).candidates;
      |candidates| == candidateLimit && forall c :: c in candidates ==> MayPrecede(c, x)
  {
    var rest, threshold := sort(records)[mainLimit..], Rating(sort(records)[mainLimit - 1]);
    ImprovableIff(rest, threshold, x);
    var improvable := sort(Improvable(rest, threshold));
    assert x in multiset(improvable);
    var k :| 0 <= k < |improvable| && improvable[k] == x;
  }

  // ---------- the groups of a rebuild ----------

  function PoolFor(g: nat): Pool { if g < 2 then OldSongs else NewSongs }

  function LimitFor(g: nat): nat { if g < 2 then BEST_MAX else NEW_MAX }

  ghost predicate IsFrom(group: seq<RatingRecord>, pool: seq<RatingRecord>) {
    forall x :: x in group ==> x in pool
  }

  /** The groups take their records from their pools. */
  ghost predicate FromPools(p: Prepared, records: seq<Record>, groups: seq<SlotGroup>) {
    |groups| == 4 && forall g: nat :: g < 4 ==> IsFrom(groups[g].records, PoolOf(p, records, PoolFor(g)))
  }

  lemma {:induction false} SlotsAreFrom(sort: Sort, records: seq<RatingRecord>, mainLimit: nat, candidateLimit: nat)
    requires IsSort(sort) && mainLimit > 0
    ensures var slots := Slots(sort, records, mainLimit, candidateLimit);
      IsFrom(slots.main, records) && IsFrom(slots.candidates, records)
  {
    var slots := Slots(sort, records, mainLimit, candidateLimit);
    SlotsArePart(sort, records, mainLimit, candidateLimit);
    forall x | x in slots.main || x in slots.candidates ensures x in records {
      assert x in multiset(slots.main) + multiset(slots.candidates);
      assert x in multiset(records);
    }
  }

  lemma {:induction false} GroupsAreFromPools(services: Services, p: Prepared, records: seq<Record>)
    requires IsSort(services.sort)
    ensures FromPools(p, records, Groups(services, p, records))
  {
    SlotsAreFrom(services.sort, PoolOf(p, records, OldSongs), BEST_MAX, CANDIDATE_MAX);
    SlotsAreFrom(services.sort, PoolOf(p, records, NewSongs), NEW_MAX, CANDIDATE_MAX);
  }

  lemma {:induction false} GroupIsOrdered(services: Services, p: Prepared, records: seq<Record>, g: nat)
    requires IsSort(services.sort) && g < 4
    ensures Ordered(Groups(services, p, records)[g].records)
  {
    SlotsAreOrdered(services.sort, PoolOf(p, records, PoolFor(g)), LimitFor(g), CANDIDATE_MAX);
  }

  lemma {:induction false} PlaceHolder(p: Prepared, records: seq<Record>, groups: seq<SlotGroup>, g: nat, k: nat)
    returns (i: nat)
    requires FromPools(p, records, groups) && g < 4 && k < |groups[g].records|
    ensures i < |records| && InPool(p, records[i], PoolFor(g))
    ensures groups[g].records[k] == RatingRecordOf(p, records[i])
  {
    assert groups[g].records[k] in groups[g].records;
    i := PoolMember(p, records, PoolFor(g), groups[g].records[k]);
  }

  /** A record in a slot is of the slot's pool, and the rebuild put it at that place. */
  lemma {:induction false} InSlotMeans(
    p: Prepared, records: seq<Record>, after: seq<Record>, groups: seq<SlotGroup>, g: nat, i: nat)
    requires FromPools(p, records, groups) && RebuildStored(records, after, groups)
    requires g < 4 && i < |after| && after[i].slotName == groups[g].name
    ensures InPool(p, records[i], PoolFor(g)) && after[i].slotOrder.Some?
    ensures 1 <= after[i].slotOrder.value <= |groups[g].records|
    ensures groups[g].records[after[i].slotOrder.value - 1] == RatingRecordOf(p, records[i])
  {
    SlotIsPlace(records, after, groups, g, i);
    var j := PlaceHolder(p, records, groups, g, after[i].slotOrder.value - 1);
    assert after[i] == records[i].(slotName := after[i].slotName, slotOrder := after[i].slotOrder);
    assert records[i].chartId == records[j].chartId;
    SameChartSameRecord(records, i, j);
  }

  /** And what the rebuild put at a place is stored there. */
  lemma {:induction false} PlaceIsTaken(
    p: Prepared, records: seq<Record>, after: seq<Record>, groups: seq<SlotGroup>, g: nat, k: nat) returns (i: nat)
    requires FromPools(p, records, groups) && RebuildStored(records, after, groups)
    requires g < 4 && k < |groups[g].records|
    ensures i < |after| && after[i].slotName == groups[g].name && after[i].slotOrder == Some(k + 1)
    ensures InPool(p, records[i], PoolFor(g)) && groups[g].records[k] == RatingRecordOf(p, records[i])
  {
    i := PlaceHolder(p, records, groups, g, k);
    PlaceIsSlot(records, after, groups, g, k, i);
  }

  lemma {:induction false} NotInSlotMeans(
    p: Prepared, records: seq<Record>, after: seq<Record>, groups: seq<SlotGroup>, g: nat, j: nat)
    requires RebuildStored(records, after, groups)
    requires g < 4 && j < |after| && after[j].slotName != groups[g].name && InPool(p, records[j], PoolFor(g))
    ensures RatingRecordOf(p, records[j]) !in groups[g].records
    ensures RatingRecordOf(p, records[j]) in PoolOf(p, records, PoolFor(g))
  {
    var x := RatingRecordOf(p, records[j]);
    PoolHolds(p, records, PoolFor(g), j);
    if x in groups[g].records {
      var k :| 0 <= k < |groups[g].records| && groups[g].records[k] == x;
      PlaceIsSlot(records, after, groups, g, k, j);
    }
  }

  function SlotNumber(name: string): nat {
    if name == "best" then 0 else if name == "best_candidate" then 1 else if name == "new" then 2 else 3
  }

  /** A stored record is outside the slots or in one of the four. */
  lemma {:induction false} InSomeSlot(records: seq<Record>, after: seq<Record>, groups: seq<SlotGroup>, i: nat)
    requires RebuildStored(records, after, groups) && i < |after|
    ensures (after[i].slotName == "none" && after[i].slotOrder == None)
      || after[i].slotName == groups[SlotNumber(after[i].slotName)].name
  {
    assert InPlace(after[i], Targets(groups));
    if after[i].chartId in ChartsOf(Targets(groups)) {
      var t := Target(after[i].chartId, after[i].slotName, after[i].slotOrder.value);
      TargetPlace(groups, t);
      var g :| 0 <= g < 4 && PlaceIn(groups[g], t);
    }
  }

  // ---------- rebuilt slots ----------

  /** Of a rated song that is out on the operational day. */
  ghost predicate Playable(p: Prepared, record: Record) {
    && record.chartId in p.charts && p.charts[record.chartId].songId in p.songs
    && var song := p.songs[p.charts[record.chartId].songId];
       !song.isDeleted && !song.isWorldsend && (song.releasedAt.Some? ==> song.releasedAt.value <= p.operationalDay)
  }

  /** Released before the version. */
  ghost predicate Older(p: Prepared, record: Record)
    requires Playable(p, record)
  {
    var song := p.songs[p.charts[record.chartId].songId];
    song.releasedAt.Some? && song.releasedAt.value < p.versionReleasedAt
  }

  lemma {:induction false} PoolIs(p: Prepared, record: Record, g: nat)
    ensures InPool(p, record, PoolFor(g)) <==> Playable(p, record) && (Older(p, record) <==> g < 2)
  {
  }

  /** The update rebuilds the slots, and these are the records once it is stored. */
  ghost predicate Rebuilds(services: Services, p: Prepared, player: Player, current: bool, after: seq<Record>) {
    var (update, broken) := UpdateOf(services, p, player, current);
    && update.Ok? && (!current || broken)
    && after == Applied(p.slotIds, player.records, update.value.diff)
  }

  lemma {:induction false} RebuildsStored(
    services: Services, p: Prepared, player: Player, current: bool, after: seq<Record>) returns (groups: seq<SlotGroup>)
    requires GoodMaster(services, p) && DistinctCharts(player.records) && Rebuilds(services, p, player, current, after)
    ensures groups == Groups(services, p, player.records) && FromPools(p, player.records, groups)
    ensures RebuildStored(player.records, after, groups)
    ensures forall i :: 0 <= i < |after| ==>
      && after[i].chartId == player.records[i].chartId && after[i].score == player.records[i].score
      && (Playable(p, after[i]) <==> Playable(p, player.records[i]))
  {
    groups := Groups(services, p, player.records);
    GroupsAreFromPools(services, p, player.records);
    var stored := RebuildIsStored(services, p, player.records);
    forall i | 0 <= i < |after|
      ensures after[i].chartId == player.records[i].chartId && after[i].score == player.records[i].score
    {
      assert after[i] == player.records[i].(slotName := after[i].slotName, slotOrder := after[i].slotOrder);
    }
  }

  /** In every update that rebuilds, "best" and its candidates are of songs released before the
      version, "new" and its candidates of songs released with it, later or on no known day; all
      are of songs that are rated and out on the operational day. */
  lemma {:induction false} RebuiltSlotsByDate(
    services: Services, p: Prepared, player: Player, current: bool, after: seq<Record>, i: nat)
    requires GoodMaster(services, p) && DistinctCharts(player.records) && Rebuilds(services, p, player, current, after)
    requires i < |after| && after[i].slotName != "none"
    ensures after[i].chartId in p.charts && p.charts[after[i].chartId].songId in p.songs
    ensures var song := p.songs[p.charts[after[i].chartId].songId];
      && !song.isDeleted && !song.isWorldsend
      && (song.releasedAt.Some? ==> song.releasedAt.value <= p.operationalDay)
      && (after[i].slotName in {"best", "best_candidate"} ==>
            song.releasedAt.Some? && song.releasedAt.value < p.versionReleasedAt)
      && (after[i].slotName in {"new", "new_candidate"} ==>
            song.releasedAt.None? || song.releasedAt.value >= p.versionReleasedAt)
      && after[i].slotName in {"best", "best_candidate", "new", "new_candidate"}
  {
    var groups := RebuildsStored(services, p, player, current, after);
    var g := SlotNumber(after[i].slotName);
    InSomeSlot(player.records, after, groups, i);
    InSlotMeans(p, player.records, after, groups, g, i);
    PoolIs(p, player.records[i], g);
  }

  /** A record is in one of the slots, at an order from 1 to the slot's size, or has no order. */
  lemma {:induction false} RebuiltSlotsFit(
    services: Services, p: Prepared, player: Player, current: bool, after: seq<Record>, i: nat)
    requires GoodMaster(services, p) && DistinctCharts(player.records) && Rebuilds(services, p, player, current, after)
    requires i < |after|
    ensures after[i].slotName in {"none", "best", "best_candidate", "new", "new_candidate"}
    ensures after[i].slotOrder.None? <==> after[i].slotName == "none"
    ensures after[i].slotOrder.Some? ==>
      1 <= after[i].slotOrder.value
        <= if after[i].slotName == "best" then 30 else if after[i].slotName == "new" then 20 else 10
  {
    var groups := RebuildsStored(services, p, player, current, after);
    InSomeSlot(player.records, after, groups, i);
    if after[i].slotName != "none" {
      InSlotMeans(p, player.records, after, groups, SlotNumber(after[i].slotName), i);
      SlotsArePart(services.sort, PoolOf(p, player.records, OldSongs), BEST_MAX, CANDIDATE_MAX);
      SlotsArePart(services.sort, PoolOf(p, player.records, NewSongs), NEW_MAX, CANDIDATE_MAX);
    }
  }

  /** The first record stands before the second: a higher rating; then a higher constant, a lower
      score, a lower official index of the song. */
  ghost predicate Before(p: Prepared, a: Record, b: Record)
    requires a.chartId in p.charts && b.chartId in p.charts
  {
    var c, d := p.charts[a.chartId], p.charts[b.chartId];
    var r, s := SingleRating(a.score, c.chartConst), SingleRating(b.score, d.chartConst);
    || r > s
    || (r == s && c.chartConst > d.chartConst)
    || (r == s && c.chartConst == d.chartConst && a.score < b.score)
    || (r == s && c.chartConst == d.chartConst && a.score == b.score
        && c.songId in p.officialIndex && d.songId in p.officialIndex
        && p.officialIndex[c.songId] <= p.officialIndex[d.songId])
  }

  lemma {:induction false} PrecedesMeans(snapshot: Snapshot, p: Prepared, day: int, a: Record, b: Record)
    requires PreparedFrom(p, snapshot, day) && Eligible(p, a) && Eligible(p, b)
    requires MayPrecede(RatingRecordOf(p, a), RatingRecordOf(p, b))
    ensures Before(p, a, b)
  {
    var c, d := p.charts[a.chartId].songId, p.charts[b.chartId].songId;
    RatedSongsHaveOwnIndex(snapshot, p, c, d);
    RatedSongsHaveOwnIndex(snapshot, p, d, c);
    var i := SongsByIdAre(snapshot.songs, c);
    var j := SongsByIdAre(snapshot.songs, d);
  }

  lemma {:induction false} AllBefore(
    snapshot: Snapshot, p: Prepared, day: int, records: seq<Record>, after: seq<Record>, groups: seq<SlotGroup>,
    g: nat, j: nat)
    requires PreparedFrom(p, snapshot, day) && FromPools(p, records, groups) && RebuildStored(records, after, groups)
    requires g < 4 && j < |records| && Eligible(p, records[j])
    requires forall x :: x in groups[g].records ==> MayPrecede(x, RatingRecordOf(p, records[j]))
    requires forall i :: 0 <= i < |after| ==>
      after[i].chartId == records[i].chartId && after[i].score == records[i].score
    ensures forall i :: 0 <= i < |after| && after[i].slotName == groups[g].name ==>
      after[i].chartId in p.charts && Before(p, after[i], after[j])
  {
    forall i | 0 <= i < |after| && after[i].slotName == groups[g].name
      ensures after[i].chartId in p.charts && Before(p, after[i], after[j])
    {
      InSlotMeans(p, records, after, groups, g, i);
      var x := groups[g].records[after[i].slotOrder.value - 1];
      assert x in groups[g].records;
      PrecedesMeans(snapshot, p, day, records[i], records[j]);
    }
  }

  /** Within a slot the orders follow the ratings. */
  lemma {:induction false} RebuiltSlotsInOrder(
    services: Services, snapshot: Snapshot, p: Prepared, day: int, player: Player, current: bool, after: seq<Record>,
    i: nat, j: nat)
    requires GoodMaster(services, p) && DistinctCharts(player.records) && Rebuilds(services, p, player, current, after)
    requires PreparedFrom(p, snapshot, day) && i < |after| && j < |after|
    requires after[i].slotName == after[j].slotName != "none"
    requires after[i].slotOrder.Some? && after[j].slotOrder.Some? && after[i].slotOrder.value < after[j].slotOrder.value
    ensures after[i].chartId in p.charts && after[j].chartId in p.charts && Before(p, after[i], after[j])
  {
    var groups := RebuildsStored(services, p, player, current, after);
    var g := SlotNumber(after[j].slotName);
    InSomeSlot(player.records, after, groups, j);
    InSlotMeans(p, player.records, after, groups, g, i);
    InSlotMeans(p, player.records, after, groups, g, j);
    GroupIsOrdered(services, p, player.records, g);
    PrecedesMeans(snapshot, p, day, player.records[i], player.records[j]);
  }

  /** No order of a slot below a taken one is left out. */
  lemma {:induction false} RebuiltSlotsHaveNoGap(
    services: Services, p: Prepared, player: Player, current: bool, after: seq<Record>, j: nat, x: nat)
    returns (k: nat)
    requires GoodMaster(services, p) && DistinctCharts(player.records) && Rebuilds(services, p, player, current, after)
    requires j < |after| && after[j].slotName != "none" && after[j].slotOrder.Some?
    requires 1 <= x <= after[j].slotOrder.value
    ensures k < |after| && after[k].slotName == after[j].slotName && after[k].slotOrder == Some(x)
  {
    var groups := RebuildsStored(services, p, player, current, after);
    k := LowerPlaceIsTaken(p, player.records, after, groups, j, x);
  }

  lemma {:induction false} LowerPlaceIsTaken(
    p: Prepared, records: seq<Record>, after: seq<Record>, groups: seq<SlotGroup>, j: nat, x: nat) returns (k: nat)
    requires FromPools(p, records, groups) && RebuildStored(records, after, groups)
    requires j < |after| && after[j].slotName != "none" && after[j].slotOrder.Some?
    requires 1 <= x <= after[j].slotOrder.value
    ensures k < |after| && after[k].slotName == after[j].slotName && after[k].slotOrder == Some(x)
  {
    var g := SlotNumber(after[j].slotName);
    InSomeSlot(records, after, groups, j);
    InSlotMeans(p, records, after, groups, g, j);
    k := PlaceIsTaken(p, records, after, groups, g, x - 1);
  }

  /** An older record that is not in "best", or a newer one not in "new", stands behind every
      record that is, and the slot is full: its order 30 or 20 is taken. */
  lemma {:induction false} RebuiltMainSlotsAreTheFirst(
    services: Services, snapshot: Snapshot, p: Prepared, day: int, player: Player, current: bool, after: seq<Record>,
    j: nat)
    requires GoodMaster(services, p) && DistinctCharts(player.records) && Rebuilds(services, p, player, current, after)
    requires PreparedFrom(p, snapshot, day) && j < |after| && Playable(p, after[j])
    ensures var slot, size := if Older(p, after[j]) then "best" else "new", if Older(p, after[j]) then 30 else 20;
      after[j].slotName != slot ==>
        && (forall i :: 0 <= i < |after| && after[i].slotName == slot ==>
              after[i].chartId in p.charts && Before(p, after[i], after[j]))
        && (exists i :: 0 <= i < |after| && after[i].slotName == slot && after[i].slotOrder == Some(size))
  {
    var groups := RebuildsStored(services, p, player, current, after);
    var records := player.records;
    var g := if Older(p, after[j]) then 0 else 2;
    PoolIs(p, records[j], g);
    if after[j].slotName != groups[g].name {
      NotInSlotMeans(p, records, after, groups, g, j);
      MainComesFirst(services.sort, PoolOf(p, records, PoolFor(g)), LimitFor(g), CANDIDATE_MAX,
                     RatingRecordOf(p, records[j]));
      AllBefore(snapshot, p, day, records, after, groups, g, j);
      var i := PlaceIsTaken(p, records, after, groups, g, LimitFor(g) - 1);
    }
  }

  /** The record at order 30 of "best" or 20 of "new": what a candidate's rating has to exceed. */
  ghost predicate IsLast(after: seq<Record>, slot: string, size: int, m: int) {
    0 <= m < |after| && after[m].slotName == slot && after[m].slotOrder == Some(size)
  }

  /** Candidates are there only once the main slot is full, are below SSS+ and would exceed its last
      rating at SSS+. */
  lemma {:induction false} RebuiltCandidatesCanRise(
    services: Services, p: Prepared, player: Player, current: bool, after: seq<Record>, i: nat)
    requires GoodMaster(services, p) && DistinctCharts(player.records) && Rebuilds(services, p, player, current, after)
    requires i < |after| && after[i].slotName in {"best_candidate", "new_candidate"}
    ensures var slot, size := if after[i].slotName == "best_candidate" then "best" else "new",
                              if after[i].slotName == "best_candidate" then 30 else 20;
      exists m :: IsLast(after, slot, size, m)
        && after[i].chartId in p.charts && after[m].chartId in p.charts && after[i].score < 1_009_000
        && SingleRating(1_009_000, p.charts[after[i].chartId].chartConst)
           > SingleRating(after[m].score, p.charts[after[m].chartId].chartConst)
  {
    var groups := RebuildsStored(services, p, player, current, after);
    var records := player.records;
    var g := if after[i].slotName == "best_candidate" then 1 else 3;
    InSlotMeans(p, records, after, groups, g, i);
    CandidateIsLiftable(services.sort, PoolOf(p, records, PoolFor(g)), LimitFor(g), CANDIDATE_MAX,
                        RatingRecordOf(p, records[i]));
    var m := PlaceIsTaken(p, records, after, groups, g - 1, LimitFor(g) - 1);
    assert IsLast(after, if g == 1 then "best" else "new", if g == 1 then 30 else 20, m);
  }

  /** Whoever could be a candidate but is not stands behind all candidates, and there are ten. */
  lemma {:induction false} RebuiltCandidatesAreTheFirst(
    services: Services, snapshot: Snapshot, p: Prepared, day: int, player: Player, current: bool, after: seq<Record>,
    j: nat, m: nat)
    requires GoodMaster(services, p) && DistinctCharts(player.records) && Rebuilds(services, p, player, current, after)
    requires PreparedFrom(p, snapshot, day) && j < |after| && Playable(p, after[j]) && after[j].slotName == "none"
    requires IsLast(after, if Older(p, after[j]) then "best" else "new", if Older(p, after[j]) then 30 else 20, m)
    requires after[j].score < 1_009_000 && after[m].chartId in p.charts
    requires SingleRating(1_009_000, p.charts[after[j].chartId].chartConst)
           > SingleRating(after[m].score, p.charts[after[m].chartId].chartConst)
    ensures var slot := if Older(p, after[j]) then "best_candidate" else "new_candidate";
      && (forall i :: 0 <= i < |after| && after[i].slotName == slot ==>
            after[i].chartId in p.charts && Before(p, after[i], after[j]))
      && (exists i :: 0 <= i < |after| && after[i].slotName == slot && after[i].slotOrder == Some(10))
  {
    var groups := RebuildsStored(services, p, player, current, after);
    var records := player.records;
    var g := if Older(p, after[j]) then 1 else 3;
    PoolIs(p, records[j], g);
    var pool, x := PoolOf(p, records, PoolFor(g)), RatingRecordOf(p, records[j]);
    NotInSlotMeans(p, records, after, groups, g - 1, j);
    NotInSlotMeans(p, records, after, groups, g, j);
    MainComesFirst(services.sort, pool, LimitFor(g), CANDIDATE_MAX, x);
    InSlotMeans(p, records, after, groups, g - 1, m);
    CandidatesComeFirst(services.sort, pool, LimitFor(g), CANDIDATE_MAX, x);
    AllBefore(snapshot, p, day, records, after, groups, g, j);
    var i := PlaceIsTaken(p, records, after, groups, g, CANDIDATE_MAX - 1);
  }

  // ---------- whether slots are rebuilt ----------

  /** The orders of a slot are distinct and from 1 to its size. */
  ghost predicate SlotValid(records: seq<Record>, slot: string, size: int) {
    && (forall i :: 0 <= i < |records| && records[i].slotName == slot ==>
          records[i].slotOrder.Some? && 1 <= records[i].slotOrder.value <= size)
    && (forall i, j :: 0 <= i < j < |records| && records[i].slotName == slot == records[j].slotName ==>
          records[i].slotOrder != records[j].slotOrder)
  }

  ghost predicate NoMainRecord(records: seq<Record>) {
    forall i :: 0 <= i < |records| ==> records[i].slotName !in {"best", "new"}
  }

  ghost predicate SomePlayable(p: Prepared, records: seq<Record>) {
    exists i :: 0 <= i < |records| && Playable(p, records[i])
  }

  lemma {:induction false} SomePlayableIs(p: Prepared, records: seq<Record>)
    ensures SomePlayable(p, records) <==> SomeEligible(p, records, |records|)
  {
    if SomePlayable(p, records) {
      var i :| 0 <= i < |records| && Playable(p, records[i]);
      assert Eligible(p, records[i]);
    }
    if SomeEligible(p, records, |records|) {
      var i :| 0 <= i < |records| && Eligible(p, records[i]);
      assert Playable(p, records[i]);
    }
  }

  /** A current player's slots count as broken exactly if "best" or "new" is not valid, or both are
      empty although a record is of a song that is out; other players have none to break. */
  lemma {:induction false} BrokenIff(services: Services, p: Prepared, player: Player, current: bool)
    requires UpdateOf(services, p, player, current).0.Ok?
    ensures UpdateOf(services, p, player, current).1 <==>
      current
      && (!SlotValid(player.records, "best", 30) || !SlotValid(player.records, "new", 20)
          || (NoMainRecord(player.records) && SomePlayable(p, player.records)))
  {
    SlotValidIs(player.records, "best", 30);
    SlotValidIs(player.records, "new", 20);
    SomePlayableIs(p, player.records);
    assert NoMainSlots(player.records) <==> NoMainRecord(player.records);
  }

  lemma {:induction false} SlotValidIs(records: seq<Record>, slot: string, size: nat)
    ensures SlotValid(records, slot, size) <==> SlotSetOk(Entries(records), slot, size)
  {
    var entries := Entries(records);
    assert forall i :: 0 <= i < |records| ==> entries[i].slotName == records[i].slotName;
  }

  /** Slots that are not rebuilt stay as they are. */
  lemma {:induction false} KeptSlotsStay(services: Services, p: Prepared, player: Player, current: bool)
    requires UpdateOf(services, p, player, current).0.Ok?
    requires current && !UpdateOf(services, p, player, current).1
    ensures Applied(p.slotIds, player.records, UpdateOf(services, p, player, current).0.value.diff) == player.records
  {
    AppliedNothing(p.slotIds, player.records);
  }

  /** The update fails exactly on the first record whose chart or song is not in the master data. */
  lemma {:induction false} UpdateFailsIff(
    services: Services, p: Prepared, player: Player, current: bool, i: nat)
    requires i < |player.records|
    requires forall j :: 0 <= j < i ==>
      player.records[j].chartId in p.charts && p.charts[player.records[j].chartId].songId in p.songs
    ensures player.records[i].chartId !in p.charts ==>
      UpdateOf(services, p, player, current).0 == Err(UnknownChart(player.records[i].chartId))
    ensures player.records[i].chartId in p.charts && p.charts[player.records[i].chartId].songId !in p.songs ==>
      UpdateOf(services, p, player, current).0 == Err(UnknownSong(p.charts[player.records[i].chartId].songId))
    ensures i + 1 == |player.records| && player.records[i].chartId in p.charts
            && p.charts[player.records[i].chartId].songId in p.songs ==>
      UpdateOf(services, p, player, current).0.Ok?
  {
    assert forall j :: 0 <= j < i ==> Problem(p, player.records[j]).None?;
    ResolvableIs(p, player.records, i);
    if Problem(p, player.records[i]).None? {
      ResolvableIs(p, player.records, i + 1);
    }
  }

  // ---------- the averages ----------

  /** The ratings of the records in a slot whose song is out. */
  ghost function SlotRatings(p: Prepared, records: seq<Record>, slot: string): seq<nat> {
    if records == [] then []
    else
      var last := records[|records| - 1];
      SlotRatings(p, records[..|records| - 1], slot)
      + (if last.slotName == slot && Playable(p, last)
         then [SingleRating(last.score, p.charts[last.chartId].chartConst)] else [])
  }

  function SumOf(s: seq<nat>): nat {
    if s == [] then 0 else SumOf(s[..|s| - 1]) + s[|s| - 1]
  }

  lemma {:induction false} SumsSnoc(pool: seq<RatingRecord>, x: RatingRecord, ratings: seq<nat>)
    ensures Sum(pool + [x]) == Sum(pool) + Rating(x) && SumOf(ratings + [Rating(x)]) == SumOf(ratings) + Rating(x)
  {
    assert (pool + [x])[..|pool|] == pool && (ratings + [Rating(x)])[..|ratings|] == ratings;
  }

  lemma {:induction false} PoolIsSlot(p: Prepared, records: seq<Record>, kept: Pool)
    requires kept == KeptBest || kept == KeptNew
    ensures var ratings := SlotRatings(p, records, if kept == KeptBest then "best" else "new");
      |PoolOf(p, records, kept)| == |ratings| && Sum(PoolOf(p, records, kept)) == SumOf(ratings)
  {
    if records != [] {
      var init, last := records[..|records| - 1], records[|records| - 1];
      var slot := if kept == KeptBest then "best" else "new";
      PoolIsSlot(p, init, kept);
      assert InPool(p, last, kept) <==> last.slotName == slot && Playable(p, last);
      if InPool(p, last, kept) {
        var x := RatingRecordOf(p, last);
        SumsSnoc(PoolOf(p, init, kept), x, SlotRatings(p, init, slot));
        assert PoolOf(p, records, kept) == PoolOf(p, init, kept) + [x];
        assert SlotRatings(p, records, slot) == SlotRatings(p, init, slot) + [Rating(x)];
      } else {
        assert PoolOf(p, records, kept) == PoolOf(p, init, kept);
        assert SlotRatings(p, records, slot) == SlotRatings(p, init, slot);
      }
    }
  }

  /** A truncated average: in ten-thousandths, of hundredths. */
  ghost predicate IsAverage(average: nat, sum: nat, count: nat) {
    if count == 0 then average == 0 else average * count <= sum * 100 < (average + 1) * count
  }

  lemma {:induction false} ScaledIsAverage(sum: nat, count: nat)
    ensures IsAverage(ScaledAverage(sum, count), sum, count)
  {
    assert sum * 10_000 / 100 == sum * 100;
  }

  lemma {:induction false} StatsAreThoseStored(services: Services, p: Prepared, player: Player, current: bool)
    requires GoodMaster(services, p) && DistinctCharts(player.records)
    requires UpdateOf(services, p, player, current).0.Ok?
    ensures var update := UpdateOf(services, p, player, current).0.value;
      var after := player.(records := Applied(p.slotIds, player.records, update.diff));
      update.stats == Kept(services, p, after).stats
  {
    var (result, broken) := UpdateOf(services, p, player, current);
    var after := player.(records := Applied(p.slotIds, player.records, result.value.diff));
    if !current || broken {
      var stored := RebuildIsStored(services, p, player.records);
      KeptAfterRebuild(services, p, player, after);
    } else {
      AppliedNothing(p.slotIds, player.records);
    }
  }

  /** The ratings of an update, rebuilt or not, are truncated averages over the records that are in
      "best" and "new" once it is stored; the player's is always over fifty. */
  lemma {:induction false} RatingsAreAverages(services: Services, p: Prepared, player: Player, current: bool)
    requires GoodMaster(services, p) && DistinctCharts(player.records)
    requires UpdateOf(services, p, player, current).0.Ok?
    ensures var update := UpdateOf(services, p, player, current).0.value;
      var after := Applied(p.slotIds, player.records, update.diff);
      var best, new_ := SlotRatings(p, after, "best"), SlotRatings(p, after, "new");
      && IsAverage(update.stats.best, SumOf(best), |best|)
      && IsAverage(update.stats.new_, SumOf(new_), |new_|)
      && IsAverage(update.stats.player, SumOf(best) + SumOf(new_), 50)
  {
    var update := UpdateOf(services, p, player, current).0.value;
    var after := Applied(p.slotIds, player.records, update.diff);
    StatsAreThoseStored(services, p, player, current);
    PoolIsSlot(p, after, KeptBest);
    PoolIsSlot(p, after, KeptNew);
    var best, new_ := PoolOf(p, after, KeptBest), PoolOf(p, after, KeptNew);
    ScaledIsAverage(Sum(best), |best|);
    ScaledIsAverage(Sum(new_), |new_|);
    ScaledIsAverage(Sum(best) + Sum(new_), 50);
  }

  // ---------- OVER POWER ----------

  /** Of a rated song, also one that is not out, that the player has unlocked; an ULTIMA chart can be
      locked on its own. */
  ghost predicate CountsFor(p: Prepared, lockedSongs: seq<LockedSong>, record: Record) {
    && record.chartId in p.charts && p.charts[record.chartId].songId in p.songs
    && var chart := p.charts[record.chartId]; var song := p.songs[chart.songId];
       && !song.isDeleted && !song.isWorldsend
       && LockedSong(song.id, false) !in lockedSongs
       && (chart.difficultyName == "ULTIMA" ==> LockedSong(song.id, true) !in lockedSongs)
  }

  lemma {:induction false} CountsForIs(p: Prepared, lockedSongs: seq<LockedSong>, record: Record)
    ensures CountsFor(p, lockedSongs, record) <==> CountsForOverpower(p, lockedSongs, record)
  {
    if Problem(p, record).None? {
      var song, isUltima := SongOf(p, record).id, p.charts[record.chartId].difficultyName == "ULTIMA";
      if Locked(lockedSongs, song, isUltima) {
        var i :| 0 <= i < |lockedSongs| && lockedSongs[i].songId == song && (isUltima || !lockedSongs[i].isUltima);
        assert lockedSongs[i] == LockedSong(song, lockedSongs[i].isUltima);
      }
    }
  }

  ghost predicate IsListed(p: Prepared, record: Record, listed: OverpowerRecord) {
    && record.chartId in p.charts && p.charts[record.chartId].songId in p.songs
    && listed == OverpowerRecord(p.songs[p.charts[record.chartId].songId].id, record.score,
                                 p.charts[record.chartId].chartConst, record.comboLampId)
  }

  ghost predicate AllListed(p: Prepared, records: seq<Record>, at: seq<nat>, listed: seq<OverpowerRecord>) {
    |listed| == |at| && forall k :: 0 <= k < |at| ==> at[k] < |records| && IsListed(p, records[at[k]], listed[k])
  }

  lemma {:induction false} OverpowerSelected(p: Prepared, lockedSongs: seq<LockedSong>, records: seq<Record>)
    returns (at: seq<nat>)
    ensures Selects(at, records, (record: Record) => CountsFor(p, lockedSongs, record))
    ensures AllListed(p, records, at, OverpowerRecords(p, lockedSongs, records))
  {
    if records == [] {
      at := [];
    } else {
      var init, last := records[..|records| - 1], records[|records| - 1];
      assert records == init + [last];
      var before := OverpowerSelected(p, lockedSongs, init);
      var keep := (record: Record) => CountsFor(p, lockedSongs, record);
      SelectsMore(before, init, last, keep);
      at := if keep(last) then before + [|init|] else before;
      OneMoreListed(p, lockedSongs, init, last, before);
    }
  }

  lemma {:induction false} OneMoreListed(
    p: Prepared, lockedSongs: seq<LockedSong>, init: seq<Record>, last: Record, before: seq<nat>)
    requires AllListed(p, init, before, OverpowerRecords(p, lockedSongs, init))
    ensures AllListed(p, init + [last], if CountsFor(p, lockedSongs, last) then before + [|init|] else before,
                      OverpowerRecords(p, lockedSongs, init + [last]))
  {
    var listed := OverpowerRecords(p, lockedSongs, init);
    assert (init + [last])[..|init|] == init;
    CountsForIs(p, lockedSongs, last);
    if CountsFor(p, lockedSongs, last) {
      AllListedMore(p, init, last, before, listed, OverpowerRecordOf(p, last));
    } else {
      assert OverpowerRecords(p, lockedSongs, init + [last]) == listed;
    }
  }

  lemma {:induction false} AllListedMore(
    p: Prepared, init: seq<Record>, last: Record, at: seq<nat>, listed: seq<OverpowerRecord>, one: OverpowerRecord)
    requires AllListed(p, init, at, listed) && IsListed(p, last, one)
    ensures AllListed(p, init + [last], at + [|init|], listed + [one])
  {
  }

  /** The OVER POWER of an update is that of the records that count, in their order. */
  lemma {:induction false} OverpowerIsOfThoseThatCount(
    services: Services, p: Prepared, player: Player, current: bool) returns (at: seq<nat>, listed: seq<OverpowerRecord>)
    requires UpdateOf(services, p, player, current).0.Ok?
    ensures UpdateOf(services, p, player, current).0.value.overpower == services.overpower(listed)
    ensures Selects(at, player.records, (record: Record) => CountsFor(p, player.lockedSongs, record))
    ensures AllListed(p, player.records, at, listed)
  {
    at := OverpowerSelected(p, player.lockedSongs, player.records);
    listed := OverpowerRecords(p, player.lockedSongs, player.records);
  }
}
