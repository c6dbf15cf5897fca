/** The three checks of stored slots (on import, on transfer, before recalculation), and how
    they agree with each other and with what a recalculation stores. */
module SlotChecks {
  import opened Common
  import opened OfficialSlots
  import opened ImportSlots

  function Limit(name: string): Option<nat> {
    if name == "best" then Some(BEST_MAX)
    else if name == "new" then Some(NEW_MAX)
    else if name == "best_candidate" || name == "new_candidate" then Some(CANDIDATE_MAX)
    else None
  }

  /** What an accepted record may say about its slot. */
  predicate EntryOk(entry: Entry) {
    if entry.slotName == "none" then entry.slotOrder.None?
    else Limit(entry.slotName).Some? && OrderInRange(entry.slotOrder, Limit(entry.slotName).value)
  }

  /** The transfer format: known slots, orders in range and no order twice. */
  ghost predicate TransferSlotsOk(entries: seq<Entry>) {
    && (forall i :: 0 <= i < |entries| ==> EntryOk(entries[i]))
    && (forall i, j ::
          0 <= i < j < |entries| && entries[i].slotName == entries[j].slotName && entries[i].slotName != "none" ==>
          entries[i].slotOrder != entries[j].slotOrder)
  }

  /** The orders of the slot are 1, 2, 3 and so on without a gap. */
  ghost predicate Consecutive(entries: seq<Entry>, name: string) {
    var orders := OrdersOf(entries, name, |entries|);
    orders == UpTo(|orders|)
  }

  /** The import additionally wants the main slots without gaps. */
  ghost predicate FullSlotsOk(entries: seq<Entry>) {
    TransferSlotsOk(entries) && Consecutive(entries, "best") && Consecutive(entries, "new")
  }

  /** The accepted lists, in numbers. */
  lemma {:induction false} TransferSlotsAre(entries: seq<Entry>)
    ensures TransferSlotsOk(entries) <==>
      && (forall i :: 0 <= i < |entries| ==>
            entries[i].slotName in {"none", "best", "best_candidate", "new", "new_candidate"})
      && (forall i :: 0 <= i < |entries| && entries[i].slotName == "none" ==> entries[i].slotOrder == None)
      && (forall i :: 0 <= i < |entries| && entries[i].slotName != "none" ==>
            && entries[i].slotOrder.Some? && 1 <= entries[i].slotOrder.value
            && entries[i].slotOrder.value
               <= if entries[i].slotName == "best" then 30 else if entries[i].slotName == "new" then 20 else 10)
      && (forall i, j :: 0 <= i < j < |entries| && entries[i].slotName == entries[j].slotName != "none" ==>
            entries[i].slotOrder != entries[j].slotOrder)
  {
  }

  // ---------- tables of orders and counts ----------

  function Seen(orders: map<string, set<int>>, name: string): set<int> {
    if name in orders then orders[name] else {}
  }

  function CountOf(counts: map<string, nat>, name: string): nat {
    if name in counts then counts[name] else 0
  }

  /** The tables hold the orders and counts of the first n records, which are all in order. */
  ghost predicate Tracked(entries: seq<Entry>, n: nat, orders: map<string, set<int>>, counts: map<string, nat>) {
    && n <= |entries| && TransferSlotsOk(entries[..n])
    && forall name: string :: name != "none" ==> TracksSlot(entries, n, orders, counts, name)
  }

  lemma {:induction false} OneMoreOk(entries: seq<Entry>, n: nat)
    requires n < |entries| && TransferSlotsOk(entries[..n])
    ensures TransferSlotsOk(entries[..n + 1]) <==>
      EntryOk(entries[n])
      && (entries[n].slotName != "none" ==> entries[n].slotOrder.value !in OrdersOf(entries, entries[n].slotName, n))
  {
    var entry, init, more := entries[n], entries[..n], entries[..n + 1];
    assert more == init + [entry];
    if EntryOk(entry) && entry.slotName != "none" {
      OrdersAre(entries, entry.slotName, n, entry.slotOrder.value);
      if entry.slotOrder.value in OrdersOf(entries, entry.slotName, n) {
        var j :| 0 <= j < n && entries[j].slotName == entry.slotName && entries[j].slotOrder == entry.slotOrder;
        assert more[j] == entries[j] && more[n] == entry;
      } else {
        assert forall j :: 0 <= j < n && entries[j].slotName == entry.slotName ==>
          entries[j].slotOrder != Some(entry.slotOrder.value);
        forall i | 0 <= i < n ensures more[i] == entries[i] && more[i] == init[i] {
        }
      }
    } else {
      assert more[n] == entry;
    }
  }

  lemma {:induction false} OkFromTheStart(entries: seq<Entry>, n: nat)
    requires n <= |entries|
    ensures TransferSlotsOk(entries) ==> TransferSlotsOk(entries[..n])
  {
  }

  /** A slot already holding as many records as its limit has no free order left. */
  lemma {:induction false} LimitLeavesNoRoom(entries: seq<Entry>, n: nat, entry: Entry, limit: nat)
    requires n <= |entries| && TransferSlotsOk(entries[..n])
    requires entry.slotName != "none" && Limit(entry.slotName) == Some(limit)
    ensures |OrdersOf(entries, entry.slotName, n)| <= limit
    ensures |OrdersOf(entries, entry.slotName, n)| == limit && EntryOk(entry) ==>
      entry.slotOrder.value in OrdersOf(entries, entry.slotName, n)
  {
    var name := entry.slotName;
    forall x | x in OrdersOf(entries, name, n) ensures x in UpTo(limit) {
      OrdersAre(entries, name, n, x);
      var j :| 0 <= j < n && entries[j].slotName == name && entries[j].slotOrder == Some(x);
      assert EntryOk(entries[..n][j]);
    }
    PartOfSet(OrdersOf(entries, name, n), UpTo(limit));
  }

  /** The tables agree with the first n records on one slot. */
  ghost predicate TracksSlot(
    entries: seq<Entry>, n: nat, orders: map<string, set<int>>, counts: map<string, nat>, name: string)
    requires n <= |entries|
  {
    Seen(orders, name) == OrdersOf(entries, name, n) && CountOf(counts, name) == |Seen(orders, name)|
  }

  lemma {:induction false} SlotOneMore(
    entries: seq<Entry>, n: nat, orders: map<string, set<int>>, counts: map<string, nat>, entry: Entry, name: string)
    requires n < |entries| && entry == entries[n] && entry.slotName != "none" && EntryOk(entry)
    requires TracksSlot(entries, n, orders, counts, name)
    requires entry.slotOrder.value !in Seen(orders, entry.slotName)
    ensures TracksSlot(
      entries, n + 1,
      orders[entry.slotName := Seen(orders, entry.slotName) + {entry.slotOrder.value}],
      counts[entry.slotName := CountOf(counts, entry.slotName) + 1], name)
  {
  }

  lemma {:induction false} NoneOneMore(
    entries: seq<Entry>, n: nat, orders: map<string, set<int>>, counts: map<string, nat>, name: string)
    requires n < |entries| && entries[n].slotName == "none" && name != "none"
    requires TracksSlot(entries, n, orders, counts, name)
    ensures TracksSlot(entries, n + 1, orders, counts, name)
  {
  }

  lemma {:induction false} TrackedOneMore(
    entries: seq<Entry>, n: nat, orders: map<string, set<int>>, counts: map<string, nat>,
    orders': map<string, set<int>>, counts': map<string, nat>)
    requires n < |entries| && Tracked(entries, n, orders, counts) && TransferSlotsOk(entries[..n + 1])
    requires entries[n].slotName == "none" ==> orders' == orders && counts' == counts
    requires var entry := entries[n];
      entry.slotName != "none" ==>
        && EntryOk(entry) && entry.slotOrder.value !in Seen(orders, entry.slotName)
        && orders' == orders[entry.slotName := Seen(orders, entry.slotName) + {entry.slotOrder.value}]
        && counts' == counts[entry.slotName := CountOf(counts, entry.slotName) + 1]
    ensures Tracked(entries, n + 1, orders', counts')
  {
    var next := n + 1;
    forall name: string | name != "none" ensures TracksSlot(entries, next, orders', counts', name) {
      assert TracksSlot(entries, n, orders, counts, name);
      if entries[n].slotName == "none" {
        NoneOneMore(entries, n, orders, counts, name);
      } else {
        SlotOneMore(entries, n, orders, counts, entries[n], name);
      }
    }
  }

  datatype SlotProblem =
    UnknownSlotId | OrderOfNone | UnsupportedSlot | OverLimit | OutOfRange | Duplicate | Gap

  /** The slot part of the check of transferred records. */
  method ValidateUserDataTransferSlots(entries: seq<Entry>) returns (problem: Option<SlotProblem>)
    ensures problem.None? <==> TransferSlotsOk(entries)
  {
    var orders: map<string, set<int>> := map[];
    var counts: map<string, nat> := map[];
    for i := 0 to |entries|
      invariant Tracked(entries, i, orders, counts)
    {
      OneMoreOk(entries, i);
      problem, orders, counts := TransferStep(entries, i, orders, counts);
      if problem.Some? {
        OkFromTheStart(entries, i + 1);
        return;
      }
    }
    assert entries[..|entries|] == entries;
    return None;
  }

  method TransferStep(
    entries: seq<Entry>, i: nat, orders: map<string, set<int>>, counts: map<string, nat>)
    returns (problem: Option<SlotProblem>, orders': map<string, set<int>>, counts': map<string, nat>)
    requires i < |entries| && Tracked(entries, i, orders, counts)
    ensures problem.None? <==> TransferSlotsOk(entries[..i + 1])
    ensures problem.None? ==> Tracked(entries, i + 1, orders', counts')
  {
    var entry := entries[i];
    OneMoreOk(entries, i);
    orders', counts' := orders, counts;
    var limit := Limit(entry.slotName);
    if entry.slotName == "none" {
      if entry.slotOrder.Some? {
        return Some(OrderOfNone), orders, counts;
      }
    } else if limit.None? {
      return Some(UnsupportedSlot), orders, counts;
    } else if !OrderInRange(entry.slotOrder, limit.value) {
      return Some(OutOfRange), orders, counts;
    } else {
      assert TracksSlot(entries, i, orders, counts, entry.slotName);
      if entry.slotOrder.value in Seen(orders, entry.slotName) {
        return Some(Duplicate), orders, counts;
      }
      LimitLeavesNoRoom(entries, i, entry, limit.value);
      orders' := orders[entry.slotName := Seen(orders, entry.slotName) + {entry.slotOrder.value}];
      counts' := counts[entry.slotName := CountOf(counts, entry.slotName) + 1];
      if counts'[entry.slotName] > limit.value {
        assert false;
        return Some(OverLimit), orders, counts;
      }
    }
    TrackedOneMore(entries, i, orders, counts, orders', counts');
    return None, orders', counts';
  }

  /** What the records say about their slots; an unknown slot ID has no name. */
  function EntriesOf(m: Masters, records: seq<Upsert>): (entries: seq<Entry>)
    ensures |entries| == |records|
    ensures forall i :: 0 <= i < |entries| ==> entries[i] == EntryOf(m, records[i])
  {
    seq(|records|, i requires 0 <= i < |records| => EntryOf(m, records[i]))
  }

  function EntryOf(m: Masters, record: Upsert): Entry {
    Entry(if record.slotId in m.slotNames then m.slotNames[record.slotId] else "", record.slotOrder)
  }

  method ImportStep(
    m: Masters, records: seq<Upsert>, i: nat, orders: map<string, set<int>>, counts: map<string, nat>)
    returns (problem: Option<SlotProblem>, orders': map<string, set<int>>, counts': map<string, nat>)
    requires i < |records| && Tracked(EntriesOf(m, records), i, orders, counts)
    ensures problem.None? <==> TransferSlotsOk(EntriesOf(m, records)[..i + 1])
    ensures problem.None? ==> Tracked(EntriesOf(m, records), i + 1, orders', counts')
  {
    ghost var entries := EntriesOf(m, records);
    var entry := EntryOf(m, records[i]);
    OneMoreOk(entries, i);
    orders', counts' := orders, counts;
    if records[i].slotId !in m.slotNames {
      return Some(UnknownSlotId), orders, counts;
    }
    var limit := Limit(entry.slotName);
    if entry.slotName == "none" {
      if entry.slotOrder.Some? {
        return Some(OrderOfNone), orders, counts;
      }
    } else if limit.None? {
      return Some(UnsupportedSlot), orders, counts;
    } else {
      assert TracksSlot(entries, i, orders, counts, entry.slotName);
      LimitLeavesNoRoom(entries, i, entry, limit.value);
      counts' := counts[entry.slotName := CountOf(counts, entry.slotName) + 1];
      if counts'[entry.slotName] > limit.value {
        return Some(OverLimit), orders, counts;
      }
      if !OrderInRange(entry.slotOrder, limit.value) {
        return Some(OutOfRange), orders, counts;
      }
      if entry.slotOrder.value in Seen(orders, entry.slotName) {
        return Some(Duplicate), orders, counts;
      }
      orders' := orders[entry.slotName := Seen(orders, entry.slotName) + {entry.slotOrder.value}];
    }
    TrackedOneMore(entries, i, orders, counts, orders', counts');
    return None, orders', counts';
  }

  /** Whether the orders 1 to count all occur. */
  method WithoutGap(orders: set<int>, count: nat) returns (ok: bool)
    requires count == |orders|
    ensures ok <==> orders == UpTo(count)
  {
    for order := 1 to count + 1
      invariant forall x :: 1 <= x < order ==> x in orders
    {
      if order !in orders {
        return false;
      }
    }
    PartOfSet(UpTo(count), orders);
    return true;
  }

  method CheckEachRecord(m: Masters, records: seq<Upsert>)
    returns (problem: Option<SlotProblem>, orders: map<string, set<int>>, counts: map<string, nat>)
    ensures problem.None? <==> TransferSlotsOk(EntriesOf(m, records))
    ensures problem.None? ==> Tracked(EntriesOf(m, records), |records|, orders, counts)
  {
    ghost var entries := EntriesOf(m, records);
    orders, counts, problem := map[], map[], None;
    for i := 0 to |records|
      invariant Tracked(entries, i, orders, counts) && problem.None?
    {
      problem, orders, counts := ImportStep(m, records, i, orders, counts);
      if problem.Some? {
        OkFromTheStart(entries, i + 1);
        return;
      }
    }
    assert entries[..|records|] == entries;
  }

  /** Exactly these lists are imported: every slot is a known one, records outside the slots
      have no order, the orders of best and of new are 1 to n for some n within the limit, and
      candidate orders are distinct and within theirs. */
  method ValidateFullRecordSlots(m: Masters, records: seq<Upsert>) returns (problem: Option<SlotProblem>)
    ensures problem.None? <==> FullSlotsOk(EntriesOf(m, records))
  {
    ghost var entries := EntriesOf(m, records);
    var orders, counts;
    problem, orders, counts := CheckEachRecord(m, records);
    if problem.Some? {
      return;
    }
    assert TracksSlot(entries, |records|, orders, counts, "best");
    assert TracksSlot(entries, |records|, orders, counts, "new");
    var best := WithoutGap(Seen(orders, "best"), CountOf(counts, "best"));
    if !best {
      return Some(Gap);
    }
    var new_ := WithoutGap(Seen(orders, "new"), CountOf(counts, "new"));
    if !new_ {
      return Some(Gap);
    }
    return None;
  }

  // ---------- the checks agree ----------

  /** In lists that transfer, every slot is valid by itself. */
  lemma {:induction false} TransferredSlotsAreOk(entries: seq<Entry>, name: string)
    requires TransferSlotsOk(entries) && Limit(name).Some?
    ensures SlotSetOk(entries, name, Limit(name).value)
  {
  }

  /** Whatever is imported can be transferred, and is kept by a recalculation; the import is the
      transfer check and no gaps in the main slots. */
  lemma {:induction false} ImportedSlotsPass(m: Masters, records: seq<Upsert>)
    requires FullSlotsOk(EntriesOf(m, records))
    ensures TransferSlotsOk(EntriesOf(m, records)) && MainSlotsOk(EntriesOf(m, records))
    ensures forall i :: 0 <= i < |records| ==> records[i].slotId in m.slotNames
  {
    var entries := EntriesOf(m, records);
    TransferredSlotsAreOk(entries, "best");
    TransferredSlotsAreOk(entries, "new");
    forall i | 0 <= i < |records| ensures records[i].slotId in m.slotNames {
      assert EntryOk(entries[i]);
    }
  }

  /** The orders of an imported main slot are exactly 1 to the number of its records. */
  lemma {:induction false} OrdersCountRecords(entries: seq<Entry>, name: string, n: nat)
    requires n <= |entries| && TransferSlotsOk(entries) && name != "none"
    ensures |OrdersOf(entries, name, n)| == Members(entries, name, n)
  {
    if n > 0 {
      OrdersCountRecords(entries, name, n - 1);
      if entries[n - 1].slotName == name {
        OrderIsNew(entries, name, n);
        OneMoreOrder(OrdersOf(entries, name, n - 1), entries[n - 1].slotOrder.value);
      } else {
        assert OrdersOf(entries, name, n) == OrdersOf(entries, name, n - 1);
      }
    }
  }

  lemma {:induction false} OneMoreOrder(orders: set<int>, order: int)
    requires order !in orders
    ensures |orders + {order}| == |orders| + 1
  {
  }

  lemma {:induction false} OrderIsNew(entries: seq<Entry>, name: string, n: nat)
    requires 0 < n <= |entries| && TransferSlotsOk(entries) && name != "none" && entries[n - 1].slotName == name
    ensures entries[n - 1].slotOrder.Some?
    ensures entries[n - 1].slotOrder.value !in OrdersOf(entries, name, n - 1)
  {
    assert EntryOk(entries[n - 1]);
    OrdersAre(entries, name, n - 1, entries[n - 1].slotOrder.value);
  }

  /** How many of the first n records are in the slot. */
  function Members(entries: seq<Entry>, name: string, n: nat): nat
    requires n <= |entries|
  {
    if n == 0 then 0
    else Members(entries, name, n - 1) + (if entries[n - 1].slotName == name then 1 else 0)
  }

  lemma {:induction false} MainOrdersAreOneToN(m: Masters, records: seq<Upsert>, name: string, order: int)
    requires FullSlotsOk(EntriesOf(m, records)) && name in {"best", "new"}
    ensures var entries := EntriesOf(m, records);
      && Members(entries, name, |entries|) <= (if name == "best" then 30 else 20)
      && ((exists i :: 0 <= i < |entries| && entries[i].slotName == name && entries[i].slotOrder == Some(order))
          <==> 1 <= order <= Members(entries, name, |entries|))
  {
    var entries := EntriesOf(m, records);
    MembersWithinLimit(entries, name);
    OrdersCountRecords(entries, name, |entries|);
    OrdersAre(entries, name, |entries|, order);
    assert Consecutive(entries, name);
  }

  lemma {:induction false} MembersWithinLimit(entries: seq<Entry>, name: string)
    requires TransferSlotsOk(entries) && Limit(name).Some?
    ensures Members(entries, name, |entries|) <= Limit(name).value
  {
    OrdersCountRecords(entries, name, |entries|);
    assert entries[..|entries|] == entries;
    LimitLeavesNoRoom(entries, |entries|, Entry(name, None), Limit(name).value);
  }
}
