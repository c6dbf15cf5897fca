/** The order of a user's goal groups, rearranged in place. */
module GoalGroupOrdering {
  import opened Common
  import opened Placements
  import opened Sequences
  import opened GoalOrdering

  class GoalGroup {
    const id: Id
    const userId: int
    var sortOrder: nat

    constructor (id: Id, userId: int, sortOrder: nat)
      ensures this.id == id && this.userId == userId && this.sortOrder == sortOrder
    {
      this.id := id;
      this.userId := userId;
      this.sortOrder := sortOrder;
    }
  }

  function GroupIdsOf(groups: seq<GoalGroup>): (ids: seq<Id>)
    ensures |ids| == |groups| && forall i :: 0 <= i < |ids| ==> ids[i] == groups[i].id
  {
    Map((group: GoalGroup) => group.id, groups)
  }

  datatype GoalGroupError = InvalidGoalGroupOrder | GoalGroupOrderMissing

  method NumberGroups(groups: seq<GoalGroup>)
    requires Distinct(GroupIdsOf(groups))
    modifies groups`sortOrder
    ensures forall k :: 0 <= k < |groups| ==> groups[k].sortOrder == U16(k + 1)
  {
    for i := 0 to |groups|
      invariant forall k :: 0 <= k < i ==> groups[k].sortOrder == U16(k + 1)
    {
      forall k | 0 <= k < i ensures groups[k] != groups[i] {
        assert GroupIdsOf(groups)[k] != GroupIdsOf(groups)[i];
      }
      groups[i].sortOrder := U16(i + 1);
    }
  }

  /** The groups of the given IDs, in their order, if these are all of their IDs. */
  method InOrder(groups: seq<GoalGroup>, orderedIds: seq<Id>) returns (found: bool, ordered: seq<GoalGroup>)
    requires Distinct(GroupIdsOf(groups))
    ensures found <==> IsPermutation(orderedIds, GroupIdsOf(groups))
    ensures found ==> GroupIdsOf(ordered) == orderedIds && Distinct(orderedIds)
    ensures found ==> forall k :: 0 <= k < |ordered| ==> ordered[k] in groups
  {
    ghost var ids := GroupIdsOf(groups);
    if |groups| != |orderedIds| {
      assert |multiset(orderedIds)| != |multiset(ids)|;
      return false, [];
    }
    var taken, items, _ := TakeInOrder(groups, GroupIdsOf(groups), orderedIds);
    TakenIffPermutation(groups, ids, orderedIds);
    if !taken {
      return false, [];
    }
    TakenItems(groups, ids, orderedIds, items);
    DistinctPermutation(ids, orderedIds);
    assert GroupIdsOf(items) == orderedIds;
    return true, items;
  }

  class GoalGroupOrder {
    const userId: int
    var groups: seq<GoalGroup>

    constructor (userId: int, groups: seq<GoalGroup>)
      ensures this.userId == userId && this.groups == groups
    {
      this.userId := userId;
      this.groups := groups;
    }

    ghost predicate Valid()
      reads this, groups
    {
      && Distinct(GroupIdsOf(groups))
      && (forall k :: 0 <= k < |groups| ==> groups[k].userId == userId)
      && (forall k :: 0 <= k < |groups| ==> groups[k].sortOrder == U16(k + 1))
    }

    /** Null when a group is missing, foreign or listed twice. */
    static method New(userId: int, listed: seq<GoalGroup?>) returns (order: GoalGroupOrder?)
      modifies (set g: GoalGroup | g in listed)`sortOrder
      ensures order != null <==>
        && (forall i :: 0 <= i < |listed| ==> listed[i] != null && listed[i].userId == userId)
        && (forall i, j :: 0 <= i < j < |listed| ==> listed[i].id != listed[j].id)
      ensures order != null ==>
        && fresh(order) && order.userId == userId && order.groups == listed && order.Valid()
      ensures order == null ==> unchanged((set g: GoalGroup | g in listed)`sortOrder)
    {
      var seen: set<Id> := {};
      var ordered: seq<GoalGroup> := [];
      for i := 0 to |listed|
        invariant |ordered| == i && ordered == listed[..i]
        invariant forall j :: 0 <= j < i ==> ordered[j].userId == userId
        invariant forall j :: 0 <= j < i ==> ordered[j].id in seen
        invariant forall id :: id in seen ==> exists j :: 0 <= j < i && ordered[j].id == id
        invariant Distinct(GroupIdsOf(ordered))
      {
        var group := listed[i];
        if group == null || group.userId != userId {
          return null;
        }
        if group.id in seen {
          return null;
        }
        seen := seen + {group.id};
        ordered := ordered + [group];
      }
      assert listed[..|listed|] == listed;
      order := new GoalGroupOrder(userId, ordered);
      NumberGroups(ordered);
    }

    /** Without any check of what is left in the lookup table, still exactly the permutations
        of the current IDs are accepted. */
    method Reorder(orderedIds: seq<Id>) returns (error: Option<GoalGroupError>)
      requires Valid()
      modifies this`groups, groups`sortOrder
      ensures Valid()
      ensures error.None? <==> IsPermutation(orderedIds, old(GroupIdsOf(groups)))
      ensures error.None? ==>
        GroupIdsOf(groups) == orderedIds && forall k :: 0 <= k < |groups| ==> groups[k] in old(groups)
      ensures error.Some? ==>
        error.value == InvalidGoalGroupOrder && groups == old(groups) && unchanged(old(groups)`sortOrder)
    {
      var found, ordered := InOrder(groups, orderedIds);
      if !found {
        return Some(InvalidGoalGroupOrder);
      }
      Replace(ordered);
      return None;
    }

    /** Numbers groups of the same user in their new order. */
    method Replace(ordered: seq<GoalGroup>)
      requires Distinct(GroupIdsOf(ordered)) && forall k :: 0 <= k < |ordered| ==> ordered[k].userId == userId
      modifies this`groups, ordered`sortOrder
      ensures Valid() && groups == ordered
    {
      groups := ordered;
      NumberGroups(groups);
    }

    method Remove(id: Id) returns (error: Option<GoalGroupError>)
      requires Valid()
      modifies this`groups, groups`sortOrder
      ensures Valid()
      ensures error.None? <==> id in old(GroupIdsOf(groups))
      ensures error.None? ==> GroupIdsOf(groups) == Drop(old(GroupIdsOf(groups)), id)
      ensures error.None? ==> forall k :: 0 <= k < |groups| ==> groups[k] in old(groups)
      ensures error.Some? ==>
        error.value == GoalGroupOrderMissing && groups == old(groups) && unchanged(old(groups)`sortOrder)
    {
      var remaining, found := AllOtherGroups(groups, id);
      if !found {
        return Some(GoalGroupOrderMissing);
      }
      DropDistinct(GroupIdsOf(groups), id);
      groups := remaining;
      NumberGroups(groups);
      return None;
    }
  }

  method AllOtherGroups(groups: seq<GoalGroup>, id: Id) returns (remaining: seq<GoalGroup>, found: bool)
    ensures found <==> id in GroupIdsOf(groups)
    ensures GroupIdsOf(remaining) == Drop(GroupIdsOf(groups), id)
    ensures forall k :: 0 <= k < |remaining| ==> remaining[k] in groups
  {
    remaining, found := [], false;
    ghost var ids := GroupIdsOf(groups);
    for i := 0 to |groups|
      invariant found <==> id in ids[..i]
      invariant GroupIdsOf(remaining) == Drop(ids[..i], id)
      invariant forall k :: 0 <= k < |remaining| ==> remaining[k] in groups
    {
      assert ids[..i + 1] == ids[..i] + [ids[i]];
      DropConcat(ids[..i], [ids[i]], id);
      DropOne(id, ids[i]);
      if groups[i].id == id {
        found := true;
        continue;
      }
      assert GroupIdsOf(remaining + [groups[i]]) == GroupIdsOf(remaining) + [groups[i].id];
      remaining := remaining + [groups[i]];
    }
    assert ids[..|groups|] == ids;
  }
}
