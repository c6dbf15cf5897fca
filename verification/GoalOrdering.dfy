/** The goal aggregates: objects whose group and sort order are rearranged in place. */
module GoalOrdering {
  import opened Common
  import opened Placements
  import opened Sequences

  class Goal {
    const id: Id
    const userId: int
    var groupId: GroupId
    var sortOrder: nat

    constructor (id: Id, userId: int, groupId: GroupId, sortOrder: nat)
      ensures this.id == id && this.userId == userId
      ensures this.groupId == groupId && this.sortOrder == sortOrder
    {
      this.id := id;
      this.userId := userId;
      this.groupId := groupId;
      this.sortOrder := sortOrder;
    }
  }

  function IdsOf(goals: seq<Goal>): (ids: seq<Id>)
    ensures |ids| == |goals| && forall i :: 0 <= i < |ids| ==> ids[i] == goals[i].id
  {
    Map((goal: Goal) => goal.id, goals)
  }

  function Places(goals: seq<Goal>): (places: seq<Place>)
    reads goals
    ensures |places| == |goals|
    ensures forall i :: 0 <= i < |places| ==> places[i] == Place(goals[i].id, goals[i].groupId)
    ensures Ids(places) == IdsOf(goals)
  {
    seq(|goals|, i requires 0 <= i < |goals| reads goals => Place(goals[i].id, goals[i].groupId))
  }

  /** Every goal's sort order is its rank within its group, as stored in 16 bits. */
  ghost predicate Ranked(goals: seq<Goal>)
    reads goals
  {
    forall i :: 0 <= i < |goals| ==> goals[i].sortOrder == U16(Rank(Places(goals), i))
  }

  lemma {:induction false} IdsOfSnoc(goals: seq<Goal>, goal: Goal)
    ensures IdsOf(goals + [goal]) == IdsOf(goals) + [goal.id]
  {
  }

  /** The goals of one group in list order. */
  method GoalsInGroup(goals: seq<Goal>, group: GroupId) returns (members: seq<Goal>)
    ensures IdsOf(members) == GroupIds(Places(goals), group)
    ensures forall k :: 0 <= k < |members| ==> members[k] in goals && members[k].groupId == group
  {
    members := [];
    ghost var places := Places(goals);
    for i := 0 to |goals|
      invariant IdsOf(members) == GroupIds(places[..i], group)
      invariant forall k :: 0 <= k < |members| ==> members[k] in goals && members[k].groupId == group
    {
      GroupIdsSnoc(places, i, group);
      if goals[i].groupId == group {
        IdsOfSnoc(members, goals[i]);
        members := members + [goals[i]];
      }
    }
    assert places[..|goals|] == places;
  }

  lemma {:induction false} SameObject(goals: seq<Goal>, goal: Goal, i: nat)
    requires i < |goals| && goal in goals && Distinct(IdsOf(goals)) && goal.id == goals[i].id
    ensures goal == goals[i]
  {
  }

  method AssignSortOrders(goals: seq<Goal>)
    requires Distinct(IdsOf(goals))
    modifies goals`sortOrder
    ensures forall k :: 0 <= k < |goals| ==> goals[k].sortOrder == U16(k + 1)
  {
    for i := 0 to |goals|
      invariant forall k :: 0 <= k < i ==> goals[k].sortOrder == U16(k + 1)
    {
      forall k | 0 <= k < i ensures goals[k] != goals[i] {
        assert IdsOf(goals)[k] != IdsOf(goals)[i];
      }
      goals[i].sortOrder := U16(i + 1);
    }
  }

  method NormalizeGroup(goals: seq<Goal>, group: GroupId)
    requires Distinct(IdsOf(goals))
    modifies goals`sortOrder
    ensures Places(goals) == old(Places(goals))
    ensures forall i :: 0 <= i < |goals| ==>
      goals[i].sortOrder == if goals[i].groupId == group then U16(Rank(Places(goals), i))
                            else old(goals[i].sortOrder)
  {
    ghost var places := Places(goals);
    var members := GoalsInGroup(goals, group);
    GroupIdsDistinct(places, group);
    AssignSortOrders(members);
    forall i | 0 <= i < |goals| && goals[i].groupId == group
      ensures goals[i].sortOrder == U16(Rank(places, i))
    {
      RankIsPosition(places, i);
      var k := Rank(places, i) - 1;
      assert IdsOf(members)[k] == goals[i].id;
      SameObject(goals, members[k], i);
    }
  }

  method NormalizeAll(goals: seq<Goal>)
    requires Distinct(IdsOf(goals))
    modifies goals`sortOrder
    ensures Places(goals) == old(Places(goals))
    ensures Ranked(goals)
  {
    ghost var places := Places(goals);
    var seenGroups: set<Id> := {};
    NormalizeGroup(goals, None);
    for i := 0 to |goals|
      invariant Places(goals) == places
      invariant forall j :: 0 <= j < i && places[j].group.Some? ==> places[j].group.value in seenGroups
      invariant forall j ::
        0 <= j < |goals| && (places[j].group.Some? ==> places[j].group.value in seenGroups)
        ==> goals[j].sortOrder == U16(Rank(places, j))
    {
      if goals[i].groupId.None? {
        continue;
      }
      if goals[i].groupId.value in seenGroups {
        continue;
      }
      seenGroups := seenGroups + {goals[i].groupId.value};
      NormalizeGroup(goals, goals[i].groupId);
    }
  }

  // ---------- one group's order ----------

  datatype GoalError = InvalidGoalOrder | GoalOrderMissing | InvalidGoalArrangement | GoalArrangementMissing

  class GoalOrder {
    const userId: int
    const groupId: GroupId
    var goals: seq<Goal>

    constructor (userId: int, groupId: GroupId, goals: seq<Goal>)
      ensures this.userId == userId && this.groupId == groupId && this.goals == goals
    {
      this.userId := userId;
      this.groupId := groupId;
      this.goals := goals;
    }

    /** Null when a goal is missing, foreign, of another group or listed twice. */
    static method New(userId: int, groupId: GroupId, listed: seq<Goal?>) returns (order: GoalOrder?)
      modifies (set g: Goal | g in listed)`sortOrder
      ensures order != null <==>
        && (forall i :: 0 <= i < |listed| ==>
              listed[i] != null && listed[i].userId == userId && listed[i].groupId == groupId)
        && (forall i, j :: 0 <= i < j < |listed| ==> listed[i].id != listed[j].id)
      ensures order != null ==>
        && fresh(order) && order.userId == userId && order.groupId == groupId && order.goals == listed
        && Distinct(IdsOf(order.goals))
        && forall k :: 0 <= k < |order.goals| ==> order.goals[k].sortOrder == U16(k + 1)
      ensures order == null ==> unchanged((set g: Goal | g in listed)`sortOrder)
    {
      var seen: set<Id> := {};
      var ordered: seq<Goal> := [];
      for i := 0 to |listed|
        invariant |ordered| == i && ordered == listed[..i]
        invariant forall j :: 0 <= j < i ==> ordered[j].userId == userId && ordered[j].groupId == groupId
        invariant forall j :: 0 <= j < i ==> ordered[j].id in seen
        invariant forall id :: id in seen ==> exists j :: 0 <= j < i && ordered[j].id == id
        invariant Distinct(IdsOf(ordered))
      {
        var goal := listed[i];
        if goal == null || goal.userId != userId || goal.groupId != groupId {
          return null;
        }
        if goal.id in seen {
          return null;
        }
        seen := seen + {goal.id};
        ordered := ordered + [goal];
      }
      assert listed[..|listed|] == listed;
      order := new GoalOrder(userId, groupId, ordered);
      AssignSortOrders(ordered);
    }

    ghost predicate Valid()
      reads this, goals
    {
      && Distinct(IdsOf(goals))
      && (forall k :: 0 <= k < |goals| ==> goals[k].groupId == groupId)
      && (forall k :: 0 <= k < |goals| ==> goals[k].sortOrder == U16(k + 1))
    }

    /** Accepts exactly the permutations of the current IDs. Once all IDs were looked up the
        lookup table is empty, so a check for IDs left over would never fail. */
    method Reorder(orderedIds: seq<Id>) returns (error: Option<GoalError>)
      requires Valid()
      modifies this`goals, goals`sortOrder
      ensures Valid()
      ensures error.None? <==> IsPermutation(orderedIds, old(IdsOf(goals)))
      ensures error.None? ==>
        IdsOf(goals) == orderedIds && forall k :: 0 <= k < |goals| ==> goals[k] in old(goals)
      ensures error.Some? ==>
        error.value == InvalidGoalOrder && goals == old(goals) && unchanged(old(goals)`sortOrder)
    {
      if |goals| != |orderedIds| {
        assert |multiset(orderedIds)| != |multiset(IdsOf(goals))|;
        return Some(InvalidGoalOrder);
      }
      var found, ordered, leftover := TakeInOrder(goals, IdsOf(goals), orderedIds);
      TakenIffPermutation(goals, IdsOf(goals), orderedIds);
      if !found {
        return Some(InvalidGoalOrder);
      }
      assert leftover == map[];
      TakenItems(goals, IdsOf(goals), orderedIds, ordered);
      DistinctPermutation(IdsOf(goals), orderedIds);
      assert IdsOf(ordered) == orderedIds;
      goals := ordered;
      AssignSortOrders(goals);
      return None;
    }

    method Remove(id: Id) returns (error: Option<GoalError>)
      requires Valid()
      modifies this`goals, goals`sortOrder
      ensures Valid()
      ensures error.None? <==> id in old(IdsOf(goals))
      ensures error.None? ==> IdsOf(goals) == Drop(old(IdsOf(goals)), id)
      ensures error.Some? ==>
        error.value == GoalOrderMissing && goals == old(goals) && unchanged(old(goals)`sortOrder)
    {
      var remaining, found := AllBut(goals, id);
      if !found {
        return Some(GoalOrderMissing);
      }
      DropDistinct(IdsOf(goals), id);
      goals := remaining;
      AssignSortOrders(goals);
      return None;
    }
  }

  lemma {:induction false} DropDistinct(ids: seq<Id>, id: Id)
    requires Distinct(ids)
    ensures Distinct(Drop(ids, id))
  {
    DropCount(ids, id);
    forall x | x in Drop(ids, id) ensures multiset(Drop(ids, id))[x] <= 1 {
      DistinctCount(ids, x);
    }
    DistinctByCount(Drop(ids, id));
  }

  lemma {:induction false} PlacesConcat(a: seq<Goal>, b: seq<Goal>)
    ensures Places(a + b) == Places(a) + Places(b)
  {
  }

  lemma {:induction false} DropOne(id: Id, other: Id)
    ensures Drop([other], id) == if other == id then [] else [other]
  {
  }

  /** The goals other than the given one. */
  method AllBut(goals: seq<Goal>, id: Id) returns (remaining: seq<Goal>, found: bool)
    ensures found <==> id in IdsOf(goals)
    ensures IdsOf(remaining) == Drop(IdsOf(goals), id)
    ensures Places(remaining) == Without(Places(goals), id)
    ensures forall k :: 0 <= k < |remaining| ==> remaining[k] in goals && remaining[k].id != id
  {
    remaining, found := [], false;
    ghost var places := Places(goals);
    for i := 0 to |goals|
      invariant found <==> exists j :: 0 <= j < i && goals[j].id == id
      invariant Places(remaining) == Without(places[..i], id)
      invariant forall k :: 0 <= k < |remaining| ==> remaining[k] in goals && remaining[k].id != id
    {
      assert places[..i + 1][..i] == places[..i];
      if goals[i].id == id {
        found := true;
        continue;
      }
      PlacesConcat(remaining, [goals[i]]);
      remaining := remaining + [goals[i]];
    }
    assert places[..|goals|] == places;
    WithoutIds(places, id);
    assert forall j :: 0 <= j < |goals| ==> IdsOf(goals)[j] == goals[j].id;
  }

  /** Items looked up by a permutation of their IDs come in that order. */
  lemma {:induction false} TakenItems<T>(items: seq<T>, ids: seq<Id>, orderedIds: seq<Id>, ordered: seq<T>)
    requires |items| == |ids| && Distinct(ids) && IsPermutation(orderedIds, ids)
    requires var taken := Taken(TableOf(items, ids), orderedIds);
      taken.Some? && taken.value.0 == ordered
    ensures |ordered| == |orderedIds|
    ensures forall k :: 0 <= k < |ordered| ==>
      exists j :: 0 <= j < |ids| && ids[j] == orderedIds[k] && items[j] == ordered[k]
  {
    var table := TableOf(items, ids);
    TableOfDistinct(items, ids);
    TakenResult(table, orderedIds);
    forall k | 0 <= k < |ordered|
      ensures exists j :: 0 <= j < |ids| && ids[j] == orderedIds[k] && items[j] == ordered[k]
    {
      assert orderedIds[k] in Elements(ids);
      var j :| 0 <= j < |ids| && ids[j] == orderedIds[k];
      assert table[ids[j]] == items[j];
    }
  }

  /** The lookup table of the items by ID. */
  function TableOf<T>(items: seq<T>, ids: seq<Id>): map<Id, T>
    requires |items| == |ids|
  {
    if ids == [] then map[]
    else
      var n := |ids| - 1;
      TableOf(items[..n], ids[..n])[ids[n] := items[n]]
  }

  lemma {:induction false} TableOfDistinct<T>(items: seq<T>, ids: seq<Id>)
    requires |items| == |ids| && Distinct(ids)
    ensures TableOf(items, ids).Keys == Elements(ids)
    ensures forall j :: 0 <= j < |ids| ==> ids[j] in TableOf(items, ids) && TableOf(items, ids)[ids[j]] == items[j]
  {
    if ids != [] {
      var n := |ids| - 1;
      TableOfDistinct(items[..n], ids[..n]);
      assert ids == ids[..n] + [ids[n]];
      forall j | 0 <= j < n ensures TableOf(items, ids)[ids[j]] == items[j] {
        assert ids[..n][j] == ids[j] && items[..n][j] == items[j];
      }
    }
  }

  method Indexed<T>(items: seq<T>, ids: seq<Id>) returns (byId: map<Id, T>)
    requires |items| == |ids|
    ensures byId == TableOf(items, ids)
  {
    byId := map[];
    for i := 0 to |items|
      invariant byId == TableOf(items[..i], ids[..i])
    {
      assert items[..i + 1][..i] == items[..i] && ids[..i + 1][..i] == ids[..i];
      byId := byId[ids[i] := items[i]];
    }
    assert items[..|items|] == items && ids[..|ids|] == ids;
  }

  /** Takes the items of the given IDs out of the table, in that order; None when an ID is not,
      or no longer, there. */
  function Taken<T>(table: map<Id, T>, ids: seq<Id>): Option<(seq<T>, map<Id, T>)> {
    if ids == [] then Some(([], table))
    else
      var n := |ids| - 1;
      match Taken(table, ids[..n])
      case None => None
      case Some((items, rest)) =>
        if ids[n] in rest then Some((items + [rest[ids[n]]], rest - {ids[n]})) else None
  }

  lemma {:induction false} TakenFails<T>(table: map<Id, T>, ids: seq<Id>, i: nat)
    requires i <= |ids| && Taken(table, ids[..i]).None?
    ensures Taken(table, ids).None?
    decreases |ids|
  {
    if i == |ids| {
      assert ids[..i] == ids;
    } else {
      var n := |ids| - 1;
      assert ids[..n][..i] == ids[..i];
      TakenFails(table, ids[..n], i);
    }
  }

  lemma {:induction false} TakenResult<T>(table: map<Id, T>, ids: seq<Id>)
    ensures Taken(table, ids).Some? <==> Distinct(ids) && forall id :: id in ids ==> id in table
    ensures Taken(table, ids).Some? ==>
      var (items, rest) := Taken(table, ids).value;
      && rest == table - Elements(ids)
      && |items| == |ids| && forall k :: 0 <= k < |ids| ==> ids[k] in table && items[k] == table[ids[k]]
  {
    if ids != [] {
      var n := |ids| - 1;
      var init := ids[..n];
      TakenResult(table, init);
      assert ids == init + [ids[n]];
      ElementsSnoc(init, ids[n]);
      DistinctSnocIff(init, ids[n]);
      if Taken(table, init).Some? {
        var (items, rest) := Taken(table, init).value;
        assert ids[n] in rest <==> ids[n] in table && ids[n] !in init;
      }
    }
  }

  lemma {:induction false} DistinctSnocIff(ids: seq<Id>, id: Id)
    ensures Distinct(ids + [id]) <==> Distinct(ids) && id !in ids
  {
    var all := ids + [id];
    if Distinct(all) {
      forall i | 0 <= i < |ids| ensures ids[i] != id {
        assert all[i] == ids[i] && all[|ids|] == id;
      }
      forall i, j | 0 <= i < j < |ids| ensures ids[i] != ids[j] {
        assert all[i] == ids[i] && all[j] == ids[j];
      }
    }
  }

  lemma {:induction false} ElementsSnoc(ids: seq<Id>, id: Id)
    ensures Elements(ids + [id]) == Elements(ids) + {id}
  {
  }

  /** All IDs of a list of distinct ones are taken exactly by its permutations, and then the
      table is empty. */
  lemma {:induction false} TakenIffPermutation<T>(items: seq<T>, ids: seq<Id>, orderedIds: seq<Id>)
    requires |items| == |ids| == |orderedIds| && Distinct(ids)
    ensures Taken(TableOf(items, ids), orderedIds).Some? <==> IsPermutation(orderedIds, ids)
    ensures Taken(TableOf(items, ids), orderedIds).Some? ==>
      Taken(TableOf(items, ids), orderedIds).value.1 == map[]
  {
    TableOfDistinct(items, ids);
    TakenResult(TableOf(items, ids), orderedIds);
    if Taken(TableOf(items, ids), orderedIds).Some? {
      AllLookedUp(orderedIds, ids);
    } else if IsPermutation(orderedIds, ids) {
      DistinctPermutation(ids, orderedIds);
      forall id | id in orderedIds ensures id in ids {
        assert id in multiset(orderedIds);
      }
    }
  }

  method TakeInOrder<T>(items: seq<T>, ids: seq<Id>, orderedIds: seq<Id>)
    returns (found: bool, ordered: seq<T>, leftover: map<Id, T>)
    requires |items| == |ids|
    ensures found <==> Taken(TableOf(items, ids), orderedIds).Some?
    ensures found ==> Taken(TableOf(items, ids), orderedIds) == Some((ordered, leftover))
  {
    var byId := Indexed(items, ids);
    ghost var table := byId;
    ordered := [];
    for i := 0 to |orderedIds|
      invariant Taken(table, orderedIds[..i]) == Some((ordered, byId))
    {
      var id := orderedIds[i];
      assert orderedIds[..i + 1][..i] == orderedIds[..i];
      if id !in byId {
        TakenFails(table, orderedIds, i + 1);
        return false, [], byId;
      }
      ordered := ordered + [byId[id]];
      byId := byId - {id};
    }
    assert orderedIds[..|orderedIds|] == orderedIds;
    return true, ordered, byId;
  }

  function Elements<T>(s: seq<T>): set<T> { set x | x in s }

  lemma {:induction false} AllLookedUp(ids: seq<Id>, of: seq<Id>)
    requires |ids| == |of| && Distinct(ids) && Distinct(of) && forall id :: id in ids ==> id in of
    ensures IsPermutation(ids, of) && Elements(ids) == Elements(of)
  {
    DistinctSize(ids);
    DistinctSize(of);
    SubsetOfSameSize(Elements(ids), Elements(of));
    forall id ensures multiset(ids)[id] == multiset(of)[id] {
      DistinctCount(ids, id);
      DistinctCount(of, id);
      assert id in ids <==> id in Elements(ids);
      assert id in of <==> id in Elements(of);
      assert id in ids <==> multiset(ids)[id] > 0;
      assert id in of <==> multiset(of)[id] > 0;
    }
  }

  lemma {:induction false} SubsetOfSameSize<T>(a: set<T>, b: set<T>)
    requires a <= b && |a| == |b|
    ensures a == b
  {
    assert b == a + (b - a);
    assert |b| == |a| + |b - a|;
  }

  lemma {:induction false} DistinctSize<T>(s: seq<T>)
    requires Distinct(s)
    ensures |Elements(s)| == |s|
  {
    if s != [] {
      var n := |s| - 1;
      DistinctSize(s[..n]);
      assert s == s[..n] + [s[n]];
      assert s[n] !in s[..n];
      assert Elements(s) == Elements(s[..n]) + {s[n]};
    }
  }

  // ---------- all goals of a user ----------

  lemma {:induction false} SameGroupsSameCount(a: seq<Place>, b: seq<Place>, group: GroupId, n: nat)
    requires |a| == |b| && n <= |a| && forall i :: 0 <= i < |a| ==> a[i].group == b[i].group
    ensures Count(a, group, n) == Count(b, group, n)
  {
    if n > 0 {
      SameGroupsSameCount(a, b, group, n - 1);
    }
  }

  /** A goal keeps its rank when its group keeps its list. */
  lemma {:induction false} SameGroupSameRank(a: seq<Place>, b: seq<Place>, i: nat, j: nat)
    requires i < |a| && j < |b| && a[i] == b[j] && Distinct(Ids(a))
    requires GroupIds(a, a[i].group) == GroupIds(b, a[i].group)
    ensures Rank(a, i) == Rank(b, j)
  {
    GroupIdsDistinct(a, a[i].group);
    RankIsPosition(a, i);
    RankIsPosition(b, j);
  }

  /** In a numbered arrangement the members of a group carry 1, 2, 3, ... */
  lemma {:induction false} MembersAreNumbered(goals: seq<Goal>, members: seq<Goal>, group: GroupId)
    requires Distinct(IdsOf(goals)) && Ranked(goals)
    requires IdsOf(members) == GroupIds(Places(goals), group)
    requires forall k :: 0 <= k < |members| ==> members[k] in goals
    ensures forall k :: 0 <= k < |members| ==> members[k].sortOrder == U16(k + 1)
  {
    forall k | 0 <= k < |members| ensures members[k].sortOrder == U16(k + 1) {
      assert IdsOf(members)[k] == members[k].id;
      var i := PositionHasPlace(Places(goals), group, k);
      SameObject(goals, members[k], i);
    }
  }

  /** The members in their order at the positions of the group, all others where they were. */
  ghost predicate PlacedBack(
      before: seq<Goal>, after: seq<Goal>, places: seq<Place>, group: GroupId, ordered: seq<Goal>) {
    && |before| == |after| == |places|
    && (forall i :: 0 <= i < |before| && places[i].group != group ==> after[i] == before[i])
    && (forall i :: 0 <= i < |before| && places[i].group == group ==>
          1 <= Rank(places, i) <= |ordered| && after[i] == ordered[Rank(places, i) - 1])
  }

  /** Puts the ordered members back into the list positions of their group. */
  method PlaceBack(goals: seq<Goal>, group: GroupId, ordered: seq<Goal>) returns (placed: seq<Goal>)
    requires |ordered| == |GroupIds(Places(goals), group)|
    ensures PlacedBack(goals, placed, Places(goals), group, ordered)
  {
    placed := goals;
    ghost var places := Places(goals);
    var next := 0;
    for i := 0 to |goals|
      invariant |placed| == |goals| && next == Count(places, group, i)
      invariant forall j :: i <= j < |goals| ==> placed[j] == goals[j]
      invariant forall j :: 0 <= j < i && goals[j].groupId != group ==> placed[j] == goals[j]
      invariant forall j :: 0 <= j < i && goals[j].groupId == group ==>
        1 <= Rank(places, j) <= |ordered| && placed[j] == ordered[Rank(places, j) - 1]
    {
      if placed[i].groupId == group {
        RankIsPosition(places, i);
        placed := placed[i := ordered[next]];
        next := next + 1;
      }
    }
  }

  ghost predicate Among(goals: seq<Goal>, all: seq<Goal>) {
    forall k :: 0 <= k < |goals| ==> goals[k] in all
  }

  /** Numbered everywhere but in the given groups. */
  ghost predicate RankedOutside(goals: seq<Goal>, groups: set<GroupId>)
    reads goals
  {
    forall i :: 0 <= i < |goals| && goals[i].groupId !in groups ==>
      goals[i].sortOrder == U16(Rank(Places(goals), i))
  }

  /** The members carry 1, 2, 3, ... in the order in which they are listed. */
  ghost predicate Renumbered(ordered: seq<Goal>, group: GroupId)
    reads ordered
  {
    forall k :: 0 <= k < |ordered| ==> ordered[k].groupId == group && ordered[k].sortOrder == U16(k + 1)
  }

  ghost predicate AllOwnedBy(goals: seq<Goal>, userId: int) {
    forall i :: 0 <= i < |goals| ==> goals[i].userId == userId
  }

  /** With the members back in their positions the list is the reordered one. */
  lemma {:induction false} PlacedBackIsReordered(
    before: seq<Goal>, after: seq<Goal>, places: seq<Place>, group: GroupId, ordered: seq<Goal>, orderedIds: seq<Id>)
    requires PlacedBack(before, after, places, group, ordered) && Places(before) == places
    requires Distinct(Ids(places)) && IsPermutation(orderedIds, GroupIds(places, group)) && IdsOf(ordered) == orderedIds
    requires Among(ordered, before) && Renumbered(ordered, group) && RankedOutside(before, {group})
    ensures |orderedIds| == |GroupIds(places, group)| && Places(after) == Reordered(places, group, orderedIds)
    ensures Distinct(IdsOf(after)) && Ranked(after) && Among(after, before)
  {
    assert |multiset(orderedIds)| == |multiset(GroupIds(places, group))|;
    PlacedBackArranged(before, after, places, group, ordered, orderedIds);
    assert Among(after, before) by { PlacedBackGoals(before, after, places, group, ordered); }
    assert Ranked(after) by { PlacedBackRanked(before, after, places, group, ordered); }
    assert Distinct(Ids(Places(after))) by { ReorderedKeepsGoals(places, group, orderedIds); }
  }

  method Reassembled(userId: int, goals: seq<Goal>, group: GroupId, orderedIds: seq<Id>, ordered: seq<Goal>)
    returns (placed: seq<Goal>)
    requires Distinct(IdsOf(goals)) && AllOwnedBy(goals, userId)
    requires IsPermutation(orderedIds, GroupIds(Places(goals), group)) && IdsOf(ordered) == orderedIds
    requires Among(ordered, goals) && Renumbered(ordered, group) && RankedOutside(goals, {group})
    ensures |orderedIds| == |GroupIds(Places(goals), group)|
    ensures Places(placed) == Reordered(Places(goals), group, orderedIds)
    ensures Distinct(IdsOf(placed)) && Ranked(placed) && Among(placed, goals) && AllOwnedBy(placed, userId)
  {
    ghost var places := Places(goals);
    assert |multiset(orderedIds)| == |multiset(GroupIds(places, group))|;
    placed := PlaceBack(goals, group, ordered);
    OwnersKept(goals, placed, userId);
    PlacedBackIsReordered(goals, placed, places, group, ordered, orderedIds);
  }

  lemma {:induction false} PlacedBackArranged(
    before: seq<Goal>, after: seq<Goal>, places: seq<Place>, group: GroupId, ordered: seq<Goal>, orderedIds: seq<Id>)
    requires PlacedBack(before, after, places, group, ordered) && Places(before) == places
    requires IdsOf(ordered) == orderedIds && |orderedIds| == |GroupIds(places, group)|
    requires Renumbered(ordered, group)
    ensures Places(after) == Reordered(places, group, orderedIds)
    ensures SameGroups(Places(after), places)
  {
    var r := Reordered(places, group, orderedIds);
    forall i | 0 <= i < |after| ensures Places(after)[i] == r[i] {
      if places[i].group == group {
        var k := Rank(places, i) - 1;
        assert after[i] == ordered[k] && ordered[k].groupId == group;
        assert IdsOf(ordered)[k] == after[i].id;
      } else {
        assert Places(before)[i] == places[i];
      }
    }
  }

  ghost predicate SameGroups(a: seq<Place>, b: seq<Place>) {
    |a| == |b| && forall i :: 0 <= i < |a| ==> a[i].group == b[i].group
  }

  lemma {:induction false} PlacedBackGoals(
    before: seq<Goal>, after: seq<Goal>, places: seq<Place>, group: GroupId, ordered: seq<Goal>)
    requires PlacedBack(before, after, places, group, ordered) && Among(ordered, before)
    ensures Among(after, before)
  {
  }

  lemma {:induction false} PlacedBackRanked(
    before: seq<Goal>, after: seq<Goal>, places: seq<Place>, group: GroupId, ordered: seq<Goal>)
    requires PlacedBack(before, after, places, group, ordered) && Places(before) == places
    requires SameGroups(Places(after), places)
    requires Renumbered(ordered, group) && RankedOutside(before, {group})
    ensures Ranked(after)
  {
    forall i | 0 <= i < |after| ensures after[i].sortOrder == U16(Rank(Places(after), i)) {
      SameGroupsSameCount(places, Places(after), places[i].group, i + 1);
    }
  }

  /** All groups but the given ones keep their list. */
  ghost predicate SameOutside(a: seq<Place>, b: seq<Place>, groups: set<GroupId>) {
    forall group :: group !in groups ==> GroupIds(a, group) == GroupIds(b, group)
  }

  /** The goals carry their ranks in the given list. */
  ghost predicate Numbered(goals: seq<Goal>, places: seq<Place>)
    reads goals`sortOrder
  {
    |goals| == |places| && forall i :: 0 <= i < |goals| ==> goals[i].sortOrder == U16(Rank(places, i))
  }

  /** Goals outside the given groups are where the list says. */
  ghost predicate PlacedOutside(goals: seq<Goal>, places: seq<Place>, groups: set<GroupId>)
    requires |goals| == |places|
    reads goals`groupId
  {
    forall i :: 0 <= i < |goals| && goals[i].groupId !in groups ==>
      places[i] == Place(goals[i].id, goals[i].groupId)
  }

  /** Goals of groups that keep their list need no new numbers. */
  lemma {:induction false} UntouchedGroupsStayRanked(
    before: seq<Goal>, places: seq<Place>, after: seq<Goal>, now: seq<Place>, groups: set<GroupId>)
    requires Distinct(Ids(places)) && now == Places(after)
    requires Numbered(before, places) && PlacedOutside(before, places, groups)
    requires Among(after, before)
    requires SameOutside(places, now, groups)
    ensures RankedOutside(after, groups)
  {
    forall j | 0 <= j < |after| && after[j].groupId !in groups
      ensures after[j].sortOrder == U16(Rank(Places(after), j))
    {
      var i :| 0 <= i < |before| && before[i] == after[j];
      assert now[j] == places[i];
      SameGroupSameRank(places, now, i, j);
    }
  }

  lemma {:induction false} OwnersKept(before: seq<Goal>, after: seq<Goal>, userId: int)
    requires forall i :: 0 <= i < |before| ==> before[i].userId == userId
    requires forall k :: 0 <= k < |after| ==> after[k] in before
    ensures forall k :: 0 <= k < |after| ==> after[k].userId == userId
  {
  }

  /** Numbering the groups that changed completes the arrangement. */
  method NormalizeChanged(goals: seq<Goal>, first: GroupId, second: GroupId)
    requires Distinct(IdsOf(goals)) && RankedOutside(goals, {first, second})
    modifies goals`sortOrder
    ensures Places(goals) == old(Places(goals)) && Ranked(goals)
  {
    NormalizeGroup(goals, first);
    NormalizeGroup(goals, second);
  }

  method NormalizeLast(goals: seq<Goal>, group: GroupId)
    requires Distinct(IdsOf(goals)) && RankedOutside(goals, {group})
    modifies goals`sortOrder
    ensures Places(goals) == old(Places(goals)) && Ranked(goals)
  {
    NormalizeGroup(goals, group);
  }

  /** Reorders some of the goals, the members of one group. */
  method ReorderWithin(order: GoalOrder, goals: seq<Goal>, ghost places: seq<Place>, orderedIds: seq<Id>)
    returns (error: Option<GoalError>, ordered: seq<Goal>)
    requires order.Valid() && Among(order.goals, goals)
    requires places == Places(goals) && Numbered(goals, places)
    modifies order`goals, order.goals`sortOrder
    ensures Places(goals) == places
    ensures error.None? <==> IsPermutation(orderedIds, old(IdsOf(order.goals)))
    ensures error.Some? ==> unchanged(old(order.goals)`sortOrder)
    ensures error.None? ==> IdsOf(ordered) == orderedIds
    ensures error.None? ==>
      Among(ordered, goals) && Renumbered(ordered, order.groupId) && RankedOutside(goals, {order.groupId})
  {
    ghost var members := order.goals;
    forall i | 0 <= i < |goals| && goals[i].groupId != order.groupId ensures goals[i] !in members {
    }
    error := order.Reorder(orderedIds);
    ordered := order.goals;
    assert Places(goals) == places;
  }

  class GoalArrangement {
    const userId: int
    var goals: seq<Goal>

    constructor (userId: int, goals: seq<Goal>)
      ensures this.userId == userId && this.goals == goals
    {
      this.userId := userId;
      this.goals := goals;
    }

    /** All goals belong to the user, none is listed twice, and each group is numbered. */
    ghost predicate Valid()
      reads this, goals
    {
      && (forall i :: 0 <= i < |goals| ==> goals[i].userId == userId)
      && Distinct(IdsOf(goals))
      && Ranked(goals)
    }

    ghost function Arranged(): seq<Place>
      reads this, goals
    {
      Places(goals)
    }

    static method New(userId: int, listed: seq<Goal?>) returns (arrangement: GoalArrangement?)
      modifies (set g: Goal | g in listed)`sortOrder
      ensures arrangement != null <==>
        && (forall i :: 0 <= i < |listed| ==> listed[i] != null && listed[i].userId == userId)
        && (forall i, j :: 0 <= i < j < |listed| ==> listed[i].id != listed[j].id)
      ensures arrangement != null ==>
        && fresh(arrangement) && arrangement.userId == userId && arrangement.goals == listed
        && arrangement.Valid()
      ensures arrangement == null ==> unchanged((set g: Goal | g in listed)`sortOrder)
    {
      var seen: set<Id> := {};
      var owned: seq<Goal> := [];
      for i := 0 to |listed|
        invariant |owned| == i && owned == listed[..i]
        invariant forall j :: 0 <= j < i ==> owned[j].userId == userId
        invariant forall j :: 0 <= j < i ==> owned[j].id in seen
        invariant forall id :: id in seen ==> exists j :: 0 <= j < i && owned[j].id == id
        invariant Distinct(IdsOf(owned))
      {
        var goal := listed[i];
        if goal == null || goal.userId != userId {
          return null;
        }
        if goal.id in seen {
          return null;
        }
        seen := seen + {goal.id};
        owned := owned + [goal];
      }
      assert listed[..|listed|] == listed;
      arrangement := new GoalArrangement(userId, owned);
      NormalizeAll(owned);
    }

    /** The group takes the given order in the list positions it has; refused, without any
        change, unless the IDs are a permutation of the group's IDs. */
    method Reorder(group: GroupId, orderedIds: seq<Id>) returns (error: Option<GoalError>)
      requires Valid()
      modifies this`goals, goals`sortOrder
      ensures Valid() && forall k :: 0 <= k < |goals| ==> goals[k] in old(goals)
      ensures error.None? <==> IsPermutation(orderedIds, GroupIds(old(Arranged()), group))
      ensures error.None? ==>
        |orderedIds| == |GroupIds(old(Arranged()), group)|
        && Arranged() == Reordered(old(Arranged()), group, orderedIds)
      ensures error.Some? ==> goals == old(goals) && unchanged(old(goals)`sortOrder)
    {
      ghost var places := Arranged();
      var ordered;
      error, ordered := ReorderMembers(group, orderedIds);
      if error.Some? {
        return;
      }
      Reassemble(group, orderedIds, ordered);
    }

    /** Renumbers the members of the group in the given order, without moving them yet. */
    method ReorderMembers(group: GroupId, orderedIds: seq<Id>)
      returns (error: Option<GoalError>, ordered: seq<Goal>)
      requires Valid()
      modifies goals`sortOrder
      ensures Arranged() == old(Arranged())
      ensures error.None? <==> IsPermutation(orderedIds, GroupIds(Arranged(), group))
      ensures error.Some? ==> unchanged(goals`sortOrder)
      ensures error.None? ==> IdsOf(ordered) == orderedIds
      ensures error.None? ==>
        Among(ordered, goals) && Renumbered(ordered, group) && RankedOutside(goals, {group})
    {
      var order := OrderOf(group);
      error, ordered := ReorderWithin(order, goals, Arranged(), orderedIds);
    }

    /** Puts the renumbered members back into the positions of their group. */
    method Reassemble(group: GroupId, orderedIds: seq<Id>, ordered: seq<Goal>)
      requires Distinct(IdsOf(goals)) && AllOwnedBy(goals, userId)
      requires IsPermutation(orderedIds, GroupIds(Arranged(), group)) && IdsOf(ordered) == orderedIds
      requires Among(ordered, goals) && Renumbered(ordered, group) && RankedOutside(goals, {group})
      modifies this`goals
      ensures Valid() && Among(goals, old(goals))
      ensures |orderedIds| == |GroupIds(old(Arranged()), group)|
      ensures Arranged() == Reordered(old(Arranged()), group, orderedIds)
    {
      var placed := Reassembled(userId, goals, group, orderedIds, ordered);
      ghost var after := Places(placed);
      goals := placed;
      assert Arranged() == after;
    }

    /** The order of one group; numbering it again changes nothing. */
    method OrderOf(group: GroupId) returns (order: GoalOrder)
      requires Valid()
      modifies goals`sortOrder
      ensures unchanged(goals`sortOrder)
      ensures fresh(order) && order.groupId == group && order.Valid()
      ensures IdsOf(order.goals) == GroupIds(Arranged(), group)
      ensures forall k :: 0 <= k < |order.goals| ==> order.goals[k] in goals
    {
      var members := GoalsInGroup(goals, group);
      GroupIdsDistinct(Places(goals), group);
      MembersAreNumbered(goals, members, group);
      forall i, j | 0 <= i < j < |members| ensures members[i].id != members[j].id {
        assert IdsOf(members)[i] != IdsOf(members)[j];
      }
      var created := GoalOrder.New(userId, group, members);
      assert created != null;
      order := created;
    }

    /** Moves a goal to the tail of another group and closes the gap it leaves; staying in its
        group changes nothing. */
    method Move(goalId: Id, destination: GroupId) returns (error: Option<GoalError>)
      requires Valid()
      modifies this`goals, goals`groupId, goals`sortOrder
      ensures Valid() && forall k :: 0 <= k < |goals| ==> goals[k] in old(goals)
      ensures error.None? <==> goalId in old(IdsOf(goals))
      ensures error.Some? ==>
        error.value == GoalArrangementMissing && goals == old(goals) && Arranged() == old(Arranged())
      ensures forall i :: 0 <= i < |old(goals)| && old(goals)[i].id == goalId ==>
        Arranged() == if old(goals[i].groupId) == destination then old(Arranged())
                      else Moved(old(Arranged()), goalId, destination)
    {
      var found, at := IndexOfGoal(goals, goalId);
      if !found {
        return Some(GoalArrangementMissing);
      }
      OnlyIndex(goals, goalId, at);
      var target := goals[at];
      if target.groupId == destination {
        return None;
      }
      var sourceGroup := target.groupId;
      Relocate(target, at, destination);
      NormalizeChanged(goals, sourceGroup, destination);
      return None;
    }

    /** Puts the goal last in the list, in the given group; every goal keeps its number. */
    method Relocate(target: Goal, at: nat, destination: GroupId)
      requires Valid() && at < |goals| && goals[at] == target && target.groupId != destination
      modifies this`goals, target`groupId
      ensures forall k :: 0 <= k < |goals| ==> goals[k] in old(goals) && goals[k].userId == userId
      ensures Arranged() == Moved(old(Arranged()), target.id, destination)
      ensures Distinct(IdsOf(goals))
      ensures RankedOutside(goals, {old(target.groupId), destination})
    {
      ghost var before, places := goals, Arranged();
      ghost var sourceGroup := target.groupId;
      ghost var now := Moved(places, target.id, destination);
      assert SameOutside(places, now, {sourceGroup, destination}) by { MovedGroups(places, at, destination); }
      assert Distinct(Ids(now)) by { MovedKeepsGoals(places, at, destination); }
      assert Numbered(before, places);
      goals := MoveLast(goals, target, destination);
      UntouchedGroupsStayRanked(before, places, goals, now, {sourceGroup, destination});
    }

    /** Takes a goal out and closes the gap in its group; nothing else changes. */
    method Remove(goalId: Id) returns (error: Option<GoalError>)
      requires Valid()
      modifies this`goals, goals`sortOrder
      ensures Valid() && forall k :: 0 <= k < |goals| ==> goals[k] in old(goals)
      ensures error.None? <==> goalId in old(IdsOf(goals))
      ensures error.Some? ==>
        error.value == GoalArrangementMissing && goals == old(goals) && unchanged(old(goals)`sortOrder)
      ensures error.None? ==> Arranged() == Without(old(Arranged()), goalId)
    {
      var found, at := IndexOfGoal(goals, goalId);
      if !found {
        return Some(GoalArrangementMissing);
      }
      ghost var now := Without(Arranged(), goalId);
      var group := TakeOut(at);
      assert Places(goals) == now;
      NormalizeLast(goals, group);
      assert Arranged() == now;
      return None;
    }

    /** Takes the goal out of the list; every goal keeps its number. */
    method TakeOut(at: nat) returns (group: GroupId)
      requires Valid() && at < |goals|
      modifies this`goals
      ensures forall k :: 0 <= k < |goals| ==> goals[k] in old(goals) && goals[k].userId == userId
      ensures Arranged() == Without(old(Arranged()), old(goals)[at].id)
      ensures Distinct(IdsOf(goals)) && RankedOutside(goals, {group})
    {
      ghost var before, places := goals, Arranged();
      var id := goals[at].id;
      group := goals[at].groupId;
      ghost var now := Without(places, id);
      assert Distinct(Ids(now)) by { WithoutDropsOne(places, at); }
      WithoutOtherGroups(places, at);
      assert Numbered(before, places);
      var remaining, _ := AllBut(goals, id);
      goals := remaining;
      UntouchedGroupsStayRanked(before, places, goals, now, {group});
    }

    /** Dissolves a group: its goals go to the tail of the ungrouped ones, in their order. */
    method RemoveGroup(groupId: Id)
      requires Valid()
      modifies this`goals, goals`groupId, goals`sortOrder
      ensures Valid() && forall k :: 0 <= k < |goals| ==> goals[k] in old(goals)
      ensures Arranged() == if GroupIds(old(Arranged()), Some(groupId)) == [] then old(Arranged())
                            else GroupDissolved(old(Arranged()), groupId)
    {
      ghost var places := Arranged();
      var moved := GoalsInGroup(goals, Some(groupId));
      if |moved| == 0 {
        assert GroupIds(places, Some(groupId)) == IdsOf(moved) == [];
        return;
      }
      Dissolve(moved, groupId);
    }

    method Dissolve(moved: seq<Goal>, groupId: Id)
      requires Valid() && IdsOf(moved) == GroupIds(Arranged(), Some(groupId)) && moved != []
      requires forall k :: 0 <= k < |moved| ==> moved[k] in goals && moved[k].groupId == Some(groupId)
      modifies this`goals, goals`groupId, goals`sortOrder
      ensures Valid() && forall k :: 0 <= k < |goals| ==> goals[k] in old(goals)
      ensures Arranged() == GroupDissolved(old(Arranged()), groupId)
    {
      RelocateGroup(moved, groupId);
      NormalizeLast(goals, None);
    }

    /** Puts the members of the group, in their order, last in the list and into no group. */
    method RelocateGroup(moved: seq<Goal>, groupId: Id)
      requires Valid() && IdsOf(moved) == GroupIds(Arranged(), Some(groupId)) && moved != []
      requires forall k :: 0 <= k < |moved| ==> moved[k] in goals && moved[k].groupId == Some(groupId)
      modifies this`goals, moved`groupId
      ensures forall k :: 0 <= k < |goals| ==> goals[k] in old(goals) && goals[k].userId == userId
      ensures Arranged() == GroupDissolved(old(Arranged()), groupId)
      ensures Distinct(IdsOf(goals)) && RankedOutside(goals, {None})
    {
      ghost var before, places := goals, Arranged();
      assert Numbered(before, places);
      var remaining := GoalsOutside(goals, groupId);
      Ungroup(moved);
      goals := remaining + moved;
      DissolvedPlaces(remaining, moved, Outside(places, Some(groupId)), GroupIds(places, Some(groupId)));
      DissolvedStayRanked(before, places, goals, groupId);
    }
  }

  /** Of the goals of a dissolved group, those of the other groups keep their numbers. */
  lemma {:induction false} DissolvedStayRanked(
    before: seq<Goal>, places: seq<Place>, after: seq<Goal>, groupId: Id)
    requires Distinct(Ids(places)) && Places(after) == GroupDissolved(places, groupId)
    requires Numbered(before, places) && PlacedOutside(before, places, {None, Some(groupId)})
    requires Among(after, before)
    ensures Distinct(IdsOf(after)) && RankedOutside(after, {None})
  {
    var now := GroupDissolved(places, groupId);
    assert Distinct(Ids(now)) by { DissolvedKeepsGoals(places, groupId); }
    assert SameOutside(places, now, {None, Some(groupId)}) && GroupIds(now, Some(groupId)) == [] by {
      DissolvedGroups(places, groupId);
    }
    UntouchedGroupsStayRanked(before, places, after, now, {None, Some(groupId)});
    NoneLeft(after, Some(groupId));
    assert Ids(now) == IdsOf(after);
  }

  /** An empty group has no goal. */
  lemma {:induction false} NoneLeft(goals: seq<Goal>, group: GroupId)
    requires GroupIds(Places(goals), group) == []
    ensures forall i :: 0 <= i < |goals| ==> goals[i].groupId != group
  {
    forall i | 0 <= i < |goals| ensures goals[i].groupId != group {
      RankIsPosition(Places(goals), i);
    }
  }

  lemma {:induction false} WithoutOtherGroups(places: seq<Place>, at: nat)
    requires at < |places| && Distinct(Ids(places))
    ensures SameOutside(places, Without(places, places[at].id), {places[at].group})
  {
    forall group | group !in {places[at].group}
      ensures GroupIds(places, group) == GroupIds(Without(places, places[at].id), group)
    {
      WithoutGroups(places, places[at].id, group);
      NotInOtherGroup(places, at, group);
      DropAbsent(GroupIds(places, group), places[at].id);
    }
  }

  method MoveLast(goals: seq<Goal>, target: Goal, destination: GroupId) returns (moved: seq<Goal>)
    requires target in goals
    modifies target`groupId
    ensures target.groupId == destination
    ensures Among(moved, goals) && Places(moved) == Moved(old(Places(goals)), target.id, destination)
  {
    ghost var rest := Without(Places(goals), target.id);
    var remaining, _ := AllBut(goals, target.id);
    target.groupId := destination;
    MovedPlaces(remaining, target, rest);
    moved := remaining + [target];
  }

  lemma {:induction false} MovedPlaces(remaining: seq<Goal>, target: Goal, rest: seq<Place>)
    requires Places(remaining) == rest
    ensures Places(remaining + [target]) == rest + [Place(target.id, target.groupId)]
  {
  }

  lemma {:induction false} DissolvedPlaces(remaining: seq<Goal>, moved: seq<Goal>, rest: seq<Place>, ids: seq<Id>)
    requires Places(remaining) == rest && IdsOf(moved) == ids
    requires forall k :: 0 <= k < |moved| ==> moved[k].groupId == None
    ensures Places(remaining + moved) == rest + Ungrouped(ids)
  {
  }

  method GoalsOutside(goals: seq<Goal>, groupId: Id) returns (remaining: seq<Goal>)
    ensures Places(remaining) == Outside(Places(goals), Some(groupId))
    ensures forall k :: 0 <= k < |remaining| ==> remaining[k] in goals && remaining[k].groupId != Some(groupId)
  {
    remaining := [];
    ghost var places := Places(goals);
    for i := 0 to |goals|
      invariant Places(remaining) == Outside(places[..i], Some(groupId))
      invariant forall k :: 0 <= k < |remaining| ==> remaining[k] in goals && remaining[k].groupId != Some(groupId)
    {
      assert places[..i + 1][..i] == places[..i];
      if goals[i].groupId.None? || goals[i].groupId.value != groupId {
        PlacesConcat(remaining, [goals[i]]);
        remaining := remaining + [goals[i]];
      }
    }
    assert places[..|goals|] == places;
  }

  method Ungroup(goals: seq<Goal>)
    modifies goals`groupId
    ensures forall k :: 0 <= k < |goals| ==> goals[k].groupId == None
  {
    for i := 0 to |goals|
      invariant forall k :: 0 <= k < i ==> goals[k].groupId == None
    {
      goals[i].groupId := None;
    }
  }

  lemma {:induction false} OnlyIndex(goals: seq<Goal>, id: Id, at: nat)
    requires at < |goals| && goals[at].id == id && Distinct(IdsOf(goals))
    ensures forall i :: 0 <= i < |goals| && goals[i].id == id ==> i == at
  {
  }

  method IndexOfGoal(goals: seq<Goal>, id: Id) returns (found: bool, at: nat)
    ensures found <==> id in IdsOf(goals)
    ensures found ==> at < |goals| && goals[at].id == id
  {
    for i := 0 to |goals|
      invariant forall j :: 0 <= j < i ==> IdsOf(goals)[j] != id
    {
      assert IdsOf(goals)[i] == goals[i].id;
      if goals[i].id == id {
        return true, i;
      }
    }
    return false, 0;
  }
}
