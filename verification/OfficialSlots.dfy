/** The check of the official slots stored for a player. */
module OfficialSlots {
  import opened Common

  const BEST_MAX: nat := 30
  const NEW_MAX: nat := 20
  const CANDIDATE_MAX: nat := 10

  /** What a record says about its slot. */
  datatype Entry = Entry(slotName: string, slotOrder: Option<int>)

  predicate OrderInRange(order: Option<int>, limit: nat) {
    order.Some? && 1 <= order.value <= limit
  }

  /** Every record of the slot has an order within the limit, and no two share one. */
  ghost predicate SlotSetOk(entries: seq<Entry>, name: string, limit: nat) {
    && (forall i :: 0 <= i < |entries| && entries[i].slotName == name ==> OrderInRange(entries[i].slotOrder, limit))
    && (forall i, j :: 0 <= i < j < |entries| && entries[i].slotName == name && entries[j].slotName == name ==>
          entries[i].slotOrder != entries[j].slotOrder)
  }

  datatype SlotError = TooMany | OrderOutOfRange | OrderTwice

  function UpTo(n: nat): (s: set<int>)
    ensures |s| == n && forall x :: x in s <==> 1 <= x <= n
  {
    if n == 0 then {} else UpTo(n - 1) + {n}
  }

  lemma {:induction false} PartOfSet(a: set<int>, b: set<int>)
    requires a <= b
    ensures |a| <= |b| && (|a| == |b| ==> a == b)
  {
    assert b == a + (b - a);
    assert |b| == |a| + |b - a|;
  }

  /** The orders of the slot among the first n records. */
  function OrdersOf(entries: seq<Entry>, name: string, n: nat): set<int>
    requires n <= |entries|
  {
    if n == 0 then {}
    else
      OrdersOf(entries, name, n - 1)
      + (if entries[n - 1].slotName == name && entries[n - 1].slotOrder.Some?
         then {entries[n - 1].slotOrder.value} else {})
  }

  predicate OkSoFar(entries: seq<Entry>, name: string, limit: nat, n: nat)
    requires n <= |entries|
  {
    n == 0
    || (OkSoFar(entries, name, limit, n - 1)
        && (entries[n - 1].slotName == name ==>
              OrderInRange(entries[n - 1].slotOrder, limit)
              && entries[n - 1].slotOrder.value !in OrdersOf(entries, name, n - 1)))
  }

  lemma {:induction false} OrdersAre(entries: seq<Entry>, name: string, n: nat, order: int)
    requires n <= |entries|
    ensures order in OrdersOf(entries, name, n) <==>
      exists j :: 0 <= j < n && entries[j].slotName == name && entries[j].slotOrder == Some(order)
  {
    if n > 0 {
      OrdersAre(entries, name, n - 1, order);
    }
  }

  lemma {:induction false} OkMeans(entries: seq<Entry>, name: string, limit: nat, n: nat)
    requires n <= |entries|
    ensures OkSoFar(entries, name, limit, n) <==> SlotSetOk(entries[..n], name, limit)
  {
    if n > 0 {
      OkMeans(entries, name, limit, n - 1);
      var last := entries[n - 1];
      var init, all := entries[..n - 1], entries[..n];
      assert all == init + [last];
      if last.slotName == name && last.slotOrder.Some? {
        OrdersAre(entries, name, n - 1, last.slotOrder.value);
      }
      assert SlotSetOk(all, name, limit) ==> SlotSetOk(init, name, limit);
      assert last == all[n - 1];
    }
  }

  lemma {:induction false} OkStaysLost(entries: seq<Entry>, name: string, limit: nat, n: nat, m: nat)
    requires n <= m <= |entries| && !OkSoFar(entries, name, limit, n)
    ensures !OkSoFar(entries, name, limit, m)
  {
    if n < m {
      OkStaysLost(entries, name, limit, n, m - 1);
    }
  }

  /** Orders within the limit that differ are at most as many as the limit. */
  lemma {:induction false} OrdersFit(entries: seq<Entry>, name: string, limit: nat, n: nat)
    requires n <= |entries| && OkSoFar(entries, name, limit, n)
    ensures OrdersOf(entries, name, n) <= UpTo(limit)
    ensures |OrdersOf(entries, name, n)| <= limit
    ensures |OrdersOf(entries, name, n)| == limit ==> OrdersOf(entries, name, n) == UpTo(limit)
  {
    if n > 0 {
      OrdersFit(entries, name, limit, n - 1);
    }
    PartOfSet(OrdersOf(entries, name, n), UpTo(limit));
  }

  lemma {:induction false} Decides(entries: seq<Entry>, name: string, limit: nat, n: nat)
    requires n <= |entries|
    ensures n == |entries| && OkSoFar(entries, name, limit, n) ==> SlotSetOk(entries, name, limit)
    ensures !OkSoFar(entries, name, limit, n) ==> !SlotSetOk(entries, name, limit)
  {
    OkMeans(entries, name, limit, |entries|);
    assert entries[..|entries|] == entries;
    if !OkSoFar(entries, name, limit, n) {
      OkStaysLost(entries, name, limit, n, |entries|);
    }
  }

  /** Checks one more record of the slot. */
  method CheckNext(entries: seq<Entry>, name: string, limit: nat, i: nat, seen: set<int>, count: nat)
    returns (error: Option<SlotError>, seen': set<int>)
    requires i < |entries| && entries[i].slotName == name && OkSoFar(entries, name, limit, i)
    requires seen == OrdersOf(entries, name, i) && count == |seen| + 1
    ensures error.None? <==> OkSoFar(entries, name, limit, i + 1)
    ensures error.None? ==> seen' == OrdersOf(entries, name, i + 1) && |seen'| == count
  {
    var order := entries[i].slotOrder;
    seen' := seen;
    OrdersFit(entries, name, limit, i);
    if count > limit {
      return Some(TooMany), seen;
    }
    if !OrderInRange(order, limit) {
      return Some(OrderOutOfRange), seen;
    }
    if order.value in seen {
      return Some(OrderTwice), seen;
    }
    return None, seen + {order.value};
  }

  /** The count check never decides: it fails only where a range or repetition check would. */
  method ValidateOfficialSlotSet(entries: seq<Entry>, name: string, limit: nat) returns (error: Option<SlotError>)
    ensures error.None? <==> SlotSetOk(entries, name, limit)
  {
    var seen: set<int> := {};
    var count := 0;
    for i := 0 to |entries|
      invariant OkSoFar(entries, name, limit, i)
      invariant seen == OrdersOf(entries, name, i) && count == |seen|
    {
      if entries[i].slotName != name {
        continue;
      }
      count := count + 1;
      error, seen := CheckNext(entries, name, limit, i, seen, count);
      if error.Some? {
        Decides(entries, name, limit, i + 1);
        return;
      }
    }
    Decides(entries, name, limit, |entries|);
    return None;
  }

  ghost predicate MainSlotsOk(entries: seq<Entry>) {
    SlotSetOk(entries, "best", BEST_MAX) && SlotSetOk(entries, "new", NEW_MAX)
  }

  /** The first main slot in error, if any. */
  method ValidateOfficialMainSlots(entries: seq<Entry>) returns (slot: Option<string>)
    ensures slot.None? <==> MainSlotsOk(entries)
    ensures slot.Some? ==>
      slot.value == if SlotSetOk(entries, "best", BEST_MAX) then "new" else "best"
  {
    var error := ValidateOfficialSlotSet(entries, "best", BEST_MAX);
    if error.Some? {
      return Some("best");
    }
    error := ValidateOfficialSlotSet(entries, "new", NEW_MAX);
    if error.Some? {
      return Some("new");
    }
    return None;
  }
}
