/** The slots a recalculation stores pass the checks of import, transfer and recalculation. */
module RecalculationChecks {
  import opened Common
  import opened RatingSlots
  import opened SlotDiff
  import opened OfficialSlots
  import opened RecalculationMaster
  import opened Recalculation
  import opened RecalculationFixpoint
  import opened SlotChecks

  /** The groups keep to the limits of their slots. */
  ghost predicate WithinLimits(groups: seq<SlotGroup>) {
    forall g :: 0 <= g < |groups| ==>
      Limit(groups[g].name).Some? && |groups[g].records| <= Limit(groups[g].name).value
  }

  lemma {:induction false} FourWithinLimits(
      best: SlotGroup, bestCandidates: SlotGroup, new_: SlotGroup, newCandidates: SlotGroup)
    requires best.name == "best" && |best.records| <= BEST_MAX
    requires bestCandidates.name == "best_candidate" && |bestCandidates.records| <= CANDIDATE_MAX
    requires new_.name == "new" && |new_.records| <= NEW_MAX
    requires newCandidates.name == "new_candidate" && |newCandidates.records| <= CANDIDATE_MAX
    ensures WithinLimits([best, bestCandidates, new_, newCandidates])
  {
  }

  lemma {:induction false} RebuiltWithinLimits(services: Services, p: Prepared, records: seq<Record>)
    requires IsSort(services.sort)
    ensures WithinLimits(Groups(services, p, records))
  {
    var best := Slots(services.sort, PoolOf(p, records, OldSongs), BEST_MAX, CANDIDATE_MAX);
    var new_ := Slots(services.sort, PoolOf(p, records, NewSongs), NEW_MAX, CANDIDATE_MAX);
    SlotsArePart(services.sort, PoolOf(p, records, OldSongs), BEST_MAX, CANDIDATE_MAX);
    SlotsArePart(services.sort, PoolOf(p, records, NewSongs), NEW_MAX, CANDIDATE_MAX);
    FourWithinLimits(
      SlotGroup("best", best.main), SlotGroup("best_candidate", best.candidates),
      SlotGroup("new", new_.main), SlotGroup("new_candidate", new_.candidates));
  }

  /** A stored record is outside the slots or at a place of one of the groups. */
  lemma {:induction false} StoredRecord(
      records: seq<Record>, after: seq<Record>, groups: seq<SlotGroup>, i: nat) returns (g: nat)
    requires RebuildStored(records, after, groups) && i < |after| && after[i].slotName != "none"
    ensures g < 4 && after[i].slotName == groups[g].name && after[i].slotOrder.Some?
    ensures PlaceIn(groups[g], Target(after[i].chartId, after[i].slotName, after[i].slotOrder.value))
  {
    assert InPlace(after[i], Targets(groups));
    var t := Target(after[i].chartId, after[i].slotName, after[i].slotOrder.value);
    TargetPlace(groups, t);
    g :| 0 <= g < 4 && PlaceIn(groups[g], t);
  }

  lemma {:induction false} StoredRecordOk(records: seq<Record>, after: seq<Record>, groups: seq<SlotGroup>, i: nat)
    requires RebuildStored(records, after, groups) && WithinLimits(groups) && i < |after|
    ensures EntryOk(Entry(after[i].slotName, after[i].slotOrder))
  {
    if after[i].slotName == "none" {
      if after[i].chartId in ChartsOf(Targets(groups)) {
        assert InPlace(after[i], Targets(groups));
        var t := Target(after[i].chartId, "none", after[i].slotOrder.value);
        TargetPlace(groups, t);
        assert false;
      }
      assert InPlace(after[i], Targets(groups));
    } else {
      var g := StoredRecord(records, after, groups, i);
    }
  }

  lemma {:induction false} StoredOrdersDiffer(
      records: seq<Record>, after: seq<Record>, groups: seq<SlotGroup>, i: nat, j: nat)
    requires RebuildStored(records, after, groups) && i < j < |after|
    requires after[i].slotName == after[j].slotName && after[i].slotName != "none"
    ensures after[i].slotOrder != after[j].slotOrder
  {
    var g := StoredRecord(records, after, groups, i);
    SlotIsPlace(records, after, groups, g, j);
    assert records[i].chartId != records[j].chartId;
  }

  lemma {:induction false} StoredOrderIsPlace(
    records: seq<Record>, after: seq<Record>, groups: seq<SlotGroup>, g: nat, x: int)
    requires RebuildStored(records, after, groups) && g < 4
    requires x in OrdersOf(Entries(after), groups[g].name, |after|)
    ensures 1 <= x <= |groups[g].records|
  {
    var entries, name := Entries(after), groups[g].name;
    OrdersAre(entries, name, |entries|, x);
    var i :| 0 <= i < |entries| && entries[i].slotName == name && entries[i].slotOrder == Some(x);
    SlotIsPlace(records, after, groups, g, i);
  }

  lemma {:induction false} PlaceIsStoredOrder(
    p: Prepared, records: seq<Record>, after: seq<Record>, groups: seq<SlotGroup>, g: nat, from: Pool, x: int)
    requires RebuildStored(records, after, groups) && g < 4
    requires multiset(groups[g].records) <= multiset(PoolOf(p, records, from))
    requires 1 <= x <= |groups[g].records|
    ensures x in OrdersOf(Entries(after), groups[g].name, |after|)
  {
    var entries, name := Entries(after), groups[g].name;
    var y := groups[g].records[x - 1];
    assert y in multiset(PoolOf(p, records, from));
    var j := PoolMember(p, records, from, y);
    PlaceIsSlot(records, after, groups, g, x - 1, j);
    OrdersAre(entries, name, |entries|, x);
    assert entries[j].slotName == name && entries[j].slotOrder == Some(x);
  }

  lemma {:induction false} StoredOrdersHaveNoGap(
    p: Prepared, records: seq<Record>, after: seq<Record>, groups: seq<SlotGroup>, g: nat, from: Pool)
    requires RebuildStored(records, after, groups) && g < 4
    requires multiset(groups[g].records) <= multiset(PoolOf(p, records, from))
    ensures Consecutive(Entries(after), groups[g].name)
  {
    var orders, size := OrdersOf(Entries(after), groups[g].name, |after|), |groups[g].records|;
    forall x ensures x in orders <==> x in UpTo(size) {
      if x in orders {
        StoredOrderIsPlace(records, after, groups, g, x);
      }
      if 1 <= x <= size {
        PlaceIsStoredOrder(p, records, after, groups, g, from, x);
      }
    }
    assert orders == UpTo(size);
  }

  /** What a rebuild stores could have been imported, and can be transferred. */
  lemma {:induction false} RebuiltSlotsPass(
      services: Services, p: Prepared, records: seq<Record>) returns (after: seq<Record>)
    requires GoodMaster(services, p) && DistinctCharts(records)
    ensures after == Applied(p.slotIds, records, DiffOf(p.slotIds, records, Groups(services, p, records)))
    ensures FullSlotsOk(Entries(after))
  {
    var groups := Groups(services, p, records);
    after := RebuildIsStored(services, p, records);
    RebuiltWithinLimits(services, p, records);
    var entries := Entries(after);
    forall i | 0 <= i < |entries| ensures EntryOk(entries[i]) {
      StoredRecordOk(records, after, groups, i);
    }
    forall i, j |
      0 <= i < j < |entries| && entries[i].slotName == entries[j].slotName && entries[i].slotName != "none"
      ensures entries[i].slotOrder != entries[j].slotOrder
    {
      StoredOrdersDiffer(records, after, groups, i, j);
    }
    SlotsArePart(services.sort, PoolOf(p, records, OldSongs), BEST_MAX, CANDIDATE_MAX);
    SlotsArePart(services.sort, PoolOf(p, records, NewSongs), NEW_MAX, CANDIDATE_MAX);
    StoredOrdersHaveNoGap(p, records, after, groups, 0, OldSongs);
    StoredOrdersHaveNoGap(p, records, after, groups, 2, NewSongs);
  }
}
