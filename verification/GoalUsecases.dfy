/** The goal and goal group operations of one user, each a transaction under the user's lock. */
module GoalUsecases {
  import opened Common
  import opened Sequences
  import opened Placements
  import opened GoalOrdering
  import opened GoalGroupOrdering
  import opened GoalRows

  datatype UsecaseError =
    GoalLimitExceeded | GoalNotFound | GoalGroupNotFound | GoalGroupLimitExceeded | BadGoalOrder | BadGoalGroupOrder
    | OrderInconsistent

  lemma {:induction false} SmallRanksFit(places: seq<Place>, i: nat)
    requires i < |places| <= GOAL_MAX
    ensures U16(Rank(places, i)) == Rank(places, i)
  {
    CountBound(places, places[i].group, i + 1);
  }

  /** Reads the goals of the rows in the listed order. */
  method LoadGoals(userId: int, rows: GoalRows, ids: seq<Id>) returns (goals: seq<Goal>)
    requires forall i :: 0 <= i < |ids| ==> ids[i] in rows
    ensures |goals| == |ids| && IdsOf(goals) == ids
    ensures forall i :: 0 <= i < |goals| ==> fresh(goals[i]) && goals[i].userId == userId
    ensures Places(goals) == PlacesOf(rows, ids)
  {
    goals := [];
    for i := 0 to |ids|
      invariant |goals| == i
      invariant forall j :: 0 <= j < i ==>
        fresh(goals[j]) && goals[j].id == ids[j] && goals[j].userId == userId && goals[j].groupId == rows[ids[j]].group
    {
      var goal := new Goal(ids[i], userId, rows[ids[i]].group, rows[ids[i]].sortOrder);
      goals := goals + [goal];
    }
  }

  /** Two lists of goals that give every group the same order. */
  ghost predicate SameLists(a: seq<Place>, b: seq<Place>) {
    multiset(Ids(a)) == multiset(Ids(b)) && forall group :: GroupIds(a, group) == GroupIds(b, group)
  }

  lemma {:induction false} ListingIsSame(rows: GoalRows, groups: GroupRows, places: seq<Place>, ids: seq<Id>)
    requires Stored(rows, places) && IsListing(rows, groups, ids)
    ensures forall i :: 0 <= i < |ids| ==> ids[i] in rows
    ensures SameLists(PlacesOf(rows, ids), places)
  {
    forall id ensures id in ids <==> id in Ids(places) {
      assert id in rows <==> id in ids;
    }
    SameElements(ids, Ids(places));
    forall group ensures GroupIds(PlacesOf(rows, ids), group) == GroupIds(places, group) {
      ListingKeepsGroups(rows, groups, places, ids, group);
    }
  }

  method NewArrangement(userId: int, goals: seq<Goal>) returns (arrangement: GoalArrangement)
    requires Distinct(IdsOf(goals)) && forall i :: 0 <= i < |goals| ==> goals[i].userId == userId
    modifies goals`sortOrder
    ensures fresh(arrangement) && arrangement.Valid() && arrangement.userId == userId
    ensures arrangement.goals == goals && arrangement.Arranged() == old(Places(goals))
  {
    forall i, j | 0 <= i < j < |goals| ensures goals[i].id != goals[j].id {
      assert IdsOf(goals)[i] != IdsOf(goals)[j];
    }
    ghost var places := Places(goals);
    var created := GoalArrangement.New(userId, goals);
    arrangement := created;
    assert Places(goals) == places;
  }

  /** The arrangement of the stored goals: every group has its stored order. */
  method LoadArrangement(userId: int, rows: GoalRows, groups: GroupRows, ghost places: seq<Place>)
    returns (arrangement: GoalArrangement)
    requires Stored(rows, places)
    ensures fresh(arrangement) && arrangement.Valid() && arrangement.userId == userId
    ensures forall k :: 0 <= k < |arrangement.goals| ==> fresh(arrangement.goals[k])
    ensures SameLists(arrangement.Arranged(), places)
  {
    var ids := ListGoals(rows, groups);
    ListingIsSame(rows, groups, places, ids);
    var goals := LoadGoals(userId, rows, ids);
    arrangement := NewArrangement(userId, goals);
  }

  lemma {:induction false} CountsDecide(rows: GoalRows, ids: seq<Id>, matched: set<Id>)
    requires Distinct(ids) && matched == set id | id in ids && id in rows
    ensures |rows.Keys| == |ids| == |matched| <==> forall id :: id in rows <==> id in ids
  {
    DistinctSize(ids);
    if |rows.Keys| == |ids| == |matched| {
      SubsetOfSameSize(matched, rows.Keys);
      SubsetOfSameSize(matched, Elements(ids));
      assert forall id :: id in rows <==> id in matched;
      assert forall id :: id in ids <==> id in Elements(ids);
    }
    if forall id :: id in rows <==> id in ids {
      assert rows.Keys == Elements(ids) == matched;
    }
  }

  /** Writes group and sort order of all goals at once; refused unless they are exactly the
      stored ones. */
  method SaveGoalArrangement(rows: GoalRows, goals: seq<Goal>) returns (error: Option<UsecaseError>, after: GoalRows)
    requires Distinct(IdsOf(goals)) && Ranked(goals) && |goals| <= GOAL_MAX
    ensures error.None? <==> forall id :: id in rows <==> id in IdsOf(goals)
    ensures error.None? ==> Stored(after, Places(goals))
  {
    var ids := IdsOf(goals);
    var matched := set id | id in ids && id in rows;
    CountsDecide(rows, ids, matched);
    if |rows.Keys| != |goals| || |matched| != |goals| {
      return Some(OrderInconsistent), rows;
    }
    after := WriteGoals(rows, goals);
    return None, after;
  }

  method WriteGoals(rows: GoalRows, goals: seq<Goal>) returns (after: GoalRows)
    requires Distinct(IdsOf(goals)) && Ranked(goals) && |goals| <= GOAL_MAX
    requires forall id :: id in rows <==> id in IdsOf(goals)
    ensures Stored(after, Places(goals))
  {
    after := rows;
    for i := 0 to |goals|
      invariant after.Keys == rows.Keys
      invariant forall j :: 0 <= j < i ==>
        goals[j].id in after && after[goals[j].id] == GoalRow(goals[j].groupId, goals[j].sortOrder)
    {
      assert IdsOf(goals)[i] in rows;
      forall j | 0 <= j < i ensures goals[j].id != goals[i].id {
        assert IdsOf(goals)[j] != IdsOf(goals)[i];
      }
      after := after[goals[i].id := GoalRow(goals[i].groupId, goals[i].sortOrder)];
    }
    forall i | 0 <= i < |goals| ensures goals[i].sortOrder == Rank(Places(goals), i) {
      SmallRanksFit(Places(goals), i);
    }
  }

  // ---------- what the operations do to the lists ----------

  ghost predicate SameIds(a: seq<Place>, b: seq<Place>) {
    multiset(Ids(a)) == multiset(Ids(b))
  }

  ghost predicate Deleted(after: seq<Place>, before: seq<Place>, id: Id) {
    multiset(Ids(after)) == multiset(Ids(before)) - multiset{id}
    && forall group :: GroupIds(after, group) == Drop(GroupIds(before, group), id)
  }

  ghost predicate Added(after: seq<Place>, before: seq<Place>, id: Id, group: GroupId) {
    forall other :: GroupIds(after, other) == GroupIds(before, other) + (if other == group then [id] else [])
  }

  ghost predicate MovedTo(after: seq<Place>, before: seq<Place>, id: Id, from: GroupId, to: GroupId) {
    SameIds(after, before)
    && forall group :: GroupIds(after, group) ==
         if group == to then GroupIds(before, to) + [id]
         else if group == from then Drop(GroupIds(before, from), id)
         else GroupIds(before, group)
  }

  ghost predicate ReorderedTo(after: seq<Place>, before: seq<Place>, group: GroupId, ids: seq<Id>) {
    SameIds(after, before) && GroupIds(after, group) == ids
    && forall other :: other != group ==> GroupIds(after, other) == GroupIds(before, other)
  }

  ghost predicate Dissolved(after: seq<Place>, before: seq<Place>, groupId: Id) {
    SameIds(after, before)
    && GroupIds(after, None) == GroupIds(before, None) + GroupIds(before, Some(groupId))
    && GroupIds(after, Some(groupId)) == []
    && forall other :: other != None && other != Some(groupId) ==> GroupIds(after, other) == GroupIds(before, other)
  }

  lemma {:induction false} IdsMembers(a: seq<Place>, b: seq<Place>)
    requires SameIds(a, b)
    ensures |a| == |b| && forall id :: id in Ids(a) <==> id in Ids(b)
  {
    assert |multiset(Ids(a))| == |multiset(Ids(b))|;
    assert forall id :: id in Ids(a) <==> id in multiset(Ids(a));
    assert forall id :: id in Ids(b) <==> id in multiset(Ids(b));
  }

  lemma {:induction false} DeletedLists(arranged: seq<Place>, places: seq<Place>, i: nat)
    requires SameLists(arranged, places) && i < |arranged| && Distinct(Ids(arranged))
    ensures var after := Without(arranged, arranged[i].id);
      && Deleted(after, places, arranged[i].id) && |after| + 1 == |places|
      && forall id :: id in Ids(after) <==> id in Ids(places) && id != arranged[i].id
  {
    var id := arranged[i].id;
    var after := Without(arranged, id);
    WithoutDropsOne(arranged, i);
    IdsMembers(arranged, places);
    forall group ensures GroupIds(after, group) == Drop(GroupIds(places, group), id) {
      WithoutGroups(arranged, id, group);
    }
    DistinctCount(Ids(arranged), id);
    forall x ensures x in Ids(after) <==> x in Ids(arranged) && x != id {
      DistinctCount(Ids(arranged), x);
      assert x in Ids(after) <==> multiset(Ids(after))[x] > 0;
      assert x in Ids(arranged) <==> multiset(Ids(arranged))[x] > 0;
    }
  }

  lemma {:induction false} MovedLists(arranged: seq<Place>, places: seq<Place>, i: nat, to: GroupId)
    requires SameLists(arranged, places) && i < |arranged| && Distinct(Ids(arranged)) && arranged[i].group != to
    ensures MovedTo(Moved(arranged, arranged[i].id, to), places, arranged[i].id, arranged[i].group, to)
  {
    MovedGroups(arranged, i, to);
    MovedKeepsGoals(arranged, i, to);
  }

  lemma {:induction false} ReorderedLists(arranged: seq<Place>, places: seq<Place>, group: GroupId, ids: seq<Id>)
    requires SameLists(arranged, places) && Distinct(Ids(arranged)) && IsPermutation(ids, GroupIds(places, group))
    ensures |ids| == |GroupIds(arranged, group)|
    ensures ReorderedTo(Reordered(arranged, group, ids), places, group, ids)
  {
    ReorderedKeepsGoals(arranged, group, ids);
    ReorderedGroups(arranged, group, ids);
  }

  lemma {:induction false} DissolvedLists(arranged: seq<Place>, places: seq<Place>, groupId: Id)
    requires SameLists(arranged, places) && Distinct(Ids(arranged))
    ensures Dissolved(
      if GroupIds(arranged, Some(groupId)) == [] then arranged else GroupDissolved(arranged, groupId), places, groupId)
  {
    DissolvedGroups(arranged, groupId);
    DissolvedKeepsGoals(arranged, groupId);
  }

  // ---------- the order of groups ----------

  /** A list of groups is like a list of goals without a group. */
  function AsGoals(rows: GroupRows): GoalRows { map id | id in rows :: GoalRow(None, rows[id]) }

  lemma {:induction false} UngroupedRank(order: seq<Id>, i: nat)
    requires i < |order|
    ensures Rank(Ungrouped(order), i) == i + 1
  {
    CountIsLength(Ungrouped(order), None, i + 1);
    assert Ungrouped(order)[..i + 1] == Ungrouped(order[..i + 1]);
    UngroupedGroups(order[..i + 1], None);
  }

  lemma {:induction false} AsGoalsStored(rows: GroupRows, order: seq<Id>)
    requires StoredGroups(rows, order)
    ensures Stored(AsGoals(rows), Ungrouped(order)) && GroupIds(Ungrouped(order), None) == order
  {
    var places := Ungrouped(order);
    assert Ids(places) == order;
    UngroupedGroups(order, None);
    forall i | 0 <= i < |places|
      ensures AsGoals(rows)[places[i].id] == GoalRow(places[i].group, Rank(places, i))
    {
      UngroupedRank(order, i);
      assert rows[order[i]] == i + 1;
    }
  }

  /** Groups are listed in their stored order. */
  method ListGroups(rows: GroupRows, ghost order: seq<Id>) returns (ids: seq<Id>)
    requires StoredGroups(rows, order)
    ensures ids == order
  {
    ids := ListGoals(AsGoals(rows), map[]);
    AsGoalsStored(rows, order);
    ListingKeepsGroups(AsGoals(rows), map[], Ungrouped(order), ids, None);
    var listed := PlacesOf(AsGoals(rows), ids);
    assert listed == Ungrouped(ids);
    UngroupedGroups(ids, None);
  }

  method LoadGroupOrder(userId: int, rows: GroupRows, ghost order: seq<Id>) returns (groupOrder: GoalGroupOrder)
    requires StoredGroups(rows, order)
    ensures fresh(groupOrder) && groupOrder.Valid() && GroupIdsOf(groupOrder.groups) == order
    ensures forall k :: 0 <= k < |groupOrder.groups| ==> fresh(groupOrder.groups[k])
  {
    var ids := ListGroups(rows, order);
    var groups: seq<GoalGroup> := [];
    for i := 0 to |ids|
      invariant |groups| == i
      invariant forall j :: 0 <= j < i ==> fresh(groups[j]) && groups[j].id == ids[j] && groups[j].userId == userId
    {
      assert ids[i] in rows;
      var group := new GoalGroup(ids[i], userId, rows[ids[i]]);
      groups := groups + [group];
    }
    assert GroupIdsOf(groups) == ids;
    var created := GoalGroupOrder.New(userId, groups);
    groupOrder := created;
  }

  lemma {:induction false} GroupCountsDecide(rows: GroupRows, ids: seq<Id>, matched: set<Id>)
    requires Distinct(ids) && matched == set id | id in ids && id in rows
    ensures |rows.Keys| == |ids| == |matched| <==> forall id :: id in rows <==> id in ids
  {
    CountsDecide(AsGoals(rows), ids, matched);
    assert AsGoals(rows).Keys == rows.Keys;
  }

  method SaveGroupOrder(rows: GroupRows, groups: seq<GoalGroup>) returns (error: Option<UsecaseError>, after: GroupRows)
    requires Distinct(GroupIdsOf(groups)) && |groups| <= GROUP_MAX
    requires forall k :: 0 <= k < |groups| ==> groups[k].sortOrder == U16(k + 1)
    ensures error.None? <==> forall id :: id in rows <==> id in GroupIdsOf(groups)
    ensures error.None? ==> StoredGroups(after, GroupIdsOf(groups))
  {
    var ids := GroupIdsOf(groups);
    var matched := set id | id in ids && id in rows;
    GroupCountsDecide(rows, ids, matched);
    if |rows.Keys| != |groups| || |matched| != |groups| {
      return Some(OrderInconsistent), rows;
    }
    after := WriteGroups(rows, groups);
    return None, after;
  }

  method WriteGroups(rows: GroupRows, groups: seq<GoalGroup>) returns (after: GroupRows)
    requires Distinct(GroupIdsOf(groups)) && |groups| <= GROUP_MAX
    requires forall k :: 0 <= k < |groups| ==> groups[k].sortOrder == U16(k + 1)
    requires forall id :: id in rows <==> id in GroupIdsOf(groups)
    ensures StoredGroups(after, GroupIdsOf(groups))
  {
    ghost var ids := GroupIdsOf(groups);
    after := rows;
    for i := 0 to |groups|
      invariant after.Keys == rows.Keys
      invariant forall j :: 0 <= j < i ==> ids[j] in after && after[ids[j]] == j + 1
    {
      assert ids[i] in rows;
      after := after[groups[i].id := groups[i].sortOrder];
    }
  }

  // ---------- loading, changing and saving the goals ----------

  method DeleteLoaded(arrangement: GoalArrangement, id: Id, ghost arranged: seq<Place>)
    returns (error: Option<UsecaseError>)
    requires arrangement.Valid() && arranged == arrangement.Arranged()
    modifies arrangement`goals, arrangement.goals`sortOrder
    ensures arrangement.Valid() && error == if id in Ids(arranged) then None else Some(GoalNotFound)
    ensures error.None? ==> arrangement.Arranged() == Without(arranged, id)
  {
    assert Ids(arranged) == IdsOf(arrangement.goals);
    var missing := arrangement.Remove(id);
    return if missing.Some? then Some(GoalNotFound) else None;
  }

  method DeleteStored(
    userId: int, rows: GoalRows, groups: GroupRows, ghost places: seq<Place>, id: Id)
    returns (error: Option<UsecaseError>, after: GoalRows, ghost now: seq<Place>)
    requires Stored(rows, places) && |places| <= GOAL_MAX
    ensures error == if id in rows then None else Some(GoalNotFound)
    ensures error.None? ==> Stored(after, now) && Deleted(now, places, id) && |now| + 1 == |places|
  {
    var arrangement := LoadArrangement(userId, rows, groups, places);
    ghost var arranged := arrangement.Arranged();
    IdsMembers(arranged, places);
    error := DeleteLoaded(arrangement, id, arranged);
    if error.Some? {
      return error, rows, places;
    }
    ghost var i := IndexOfId(arranged, id);
    DeletedLists(arranged, places, i);
    now := Without(arranged, id);
    error, after := SaveWithout(arrangement, rows, places, id, now);
  }

  method SaveWithout(
    arrangement: GoalArrangement, rows: GoalRows, ghost places: seq<Place>, id: Id, ghost now: seq<Place>)
    returns (error: Option<UsecaseError>, after: GoalRows)
    requires arrangement.Valid() && now == arrangement.Arranged() && |now| <= GOAL_MAX
    requires Stored(rows, places)
    requires forall x :: x in Ids(now) <==> x in Ids(places) && x != id
    ensures error == None && Stored(after, now)
  {
    assert Ids(now) == IdsOf(arrangement.goals);
    error, after := SaveGoalArrangement(rows - {id}, arrangement.goals);
  }

  /** Saving an arrangement of exactly the stored goals succeeds. */
  method SaveArranged(arrangement: GoalArrangement, rows: GoalRows, ghost places: seq<Place>, ghost now: seq<Place>)
    returns (error: Option<UsecaseError>, after: GoalRows)
    requires arrangement.Valid() && now == arrangement.Arranged()
    requires Stored(rows, places) && |places| <= GOAL_MAX && SameIds(now, places)
    ensures error == None && Stored(after, now)
  {
    IdsMembers(now, places);
    assert Ids(now) == IdsOf(arrangement.goals);
    error, after := SaveGoalArrangement(rows, arrangement.goals);
  }

  method MoveLoaded(arrangement: GoalArrangement, id: Id, group: GroupId, ghost arranged: seq<Place>, ghost i: nat)
    requires arrangement.Valid() && arranged == arrangement.Arranged()
    requires i < |arranged| && arranged[i].id == id && arranged[i].group != group
    modifies arrangement`goals, arrangement.goals`groupId, arrangement.goals`sortOrder
    ensures arrangement.Valid() && arrangement.Arranged() == Moved(arranged, id, group)
    ensures forall k :: 0 <= k < |arrangement.goals| ==> arrangement.goals[k] in old(arrangement.goals)
  {
    assert arrangement.goals[i].id == id && arrangement.goals[i].groupId == arranged[i].group;
    assert IdsOf(arrangement.goals)[i] == id;
    var missing := arrangement.Move(id, group);
  }

  /** The number the goal got. */
  method SortOrderOf(goals: seq<Goal>, id: Id, ghost rows: GoalRows) returns (sortOrder: nat)
    requires Distinct(IdsOf(goals)) && Ranked(goals) && |goals| <= GOAL_MAX && Stored(rows, Places(goals))
    requires id in IdsOf(goals)
    ensures id in rows && rows[id].sortOrder == sortOrder
  {
    var found, at := IndexOfGoal(goals, id);
    assert Places(goals)[at].id == id;
    SmallRanksFit(Places(goals), at);
    return goals[at].sortOrder;
  }

  method MoveStored(
    userId: int, rows: GoalRows, groups: GroupRows, ghost places: seq<Place>, id: Id, group: GroupId)
    returns (error: Option<UsecaseError>, after: GoalRows, ghost now: seq<Place>, sortOrder: nat)
    requires Stored(rows, places) && |places| <= GOAL_MAX && id in rows && rows[id].group != group
    ensures error == None && Stored(after, now) && MovedTo(now, places, id, rows[id].group, group)
    ensures id in after && after[id].sortOrder == sortOrder
  {
    var arrangement := LoadArrangement(userId, rows, groups, places);
    ghost var arranged := arrangement.Arranged();
    IdsMembers(arranged, places);
    ghost var i := IndexOfId(arranged, id);
    GroupOfGoal(rows, places, arranged, i);
    MovedLists(arranged, places, i, group);
    MoveLoaded(arrangement, id, group, arranged, i);
    now := Moved(arranged, id, group);
    error, after, sortOrder := SaveMoved(arrangement, rows, places, now, id);
  }

  /** Saves the arrangement and answers the number the moved goal got. */
  method SaveMoved(
    arrangement: GoalArrangement, rows: GoalRows, ghost places: seq<Place>, ghost now: seq<Place>, id: Id)
    returns (error: Option<UsecaseError>, after: GoalRows, sortOrder: nat)
    requires arrangement.Valid() && now == arrangement.Arranged() && id in rows
    requires Stored(rows, places) && |places| <= GOAL_MAX && SameIds(now, places)
    ensures error == None && Stored(after, now) && id in after && after[id].sortOrder == sortOrder
  {
    error, after := SaveArranged(arrangement, rows, places, now);
    IdsMembers(now, places);
    assert Ids(now) == IdsOf(arrangement.goals);
    sortOrder := SortOrderOf(arrangement.goals, id, after);
  }

  lemma {:induction false} IndexOfId(places: seq<Place>, id: Id) returns (i: nat)
    requires id in Ids(places)
    ensures i < |places| && places[i].id == id
  {
    i :| i < |places| && Ids(places)[i] == id;
  }

  /** A listed goal is in the group of its row. */
  lemma {:induction false} GroupOfGoal(rows: GoalRows, places: seq<Place>, arranged: seq<Place>, i: nat)
    requires Stored(rows, places) && SameLists(arranged, places) && i < |arranged|
    ensures arranged[i].id in rows && arranged[i].group == rows[arranged[i].id].group
  {
    InGroupIff(arranged, arranged[i].group, arranged[i].id);
    InGroupIff(places, arranged[i].group, arranged[i].id);
    assert arranged[i] == Place(arranged[i].id, arranged[i].group);
    var j :| 0 <= j < |places| && places[j] == arranged[i];
  }

  method ReorderStored(
    userId: int, rows: GoalRows, groups: GroupRows, ghost places: seq<Place>, group: GroupId, ids: seq<Id>)
    returns (error: Option<UsecaseError>, after: GoalRows, ghost now: seq<Place>)
    requires Stored(rows, places) && |places| <= GOAL_MAX
    ensures error == if IsPermutation(ids, GroupIds(places, group)) then None else Some(BadGoalOrder)
    ensures error.None? ==> Stored(after, now) && ReorderedTo(now, places, group, ids)
  {
    var arrangement := LoadArrangement(userId, rows, groups, places);
    ghost var arranged := arrangement.Arranged();
    var refused := arrangement.Reorder(group, ids);
    if refused.Some? {
      return Some(BadGoalOrder), rows, places;
    }
    ReorderedLists(arranged, places, group, ids);
    now := arrangement.Arranged();
    error, after := SaveArranged(arrangement, rows, places, now);
  }

  method DissolveStored(
    userId: int, rows: GoalRows, groups: GroupRows, ghost places: seq<Place>, groupId: Id)
    returns (error: Option<UsecaseError>, after: GoalRows, ghost now: seq<Place>)
    requires Stored(rows, places) && |places| <= GOAL_MAX
    ensures error == None && Stored(after, now) && Dissolved(now, places, groupId)
  {
    var arrangement := LoadArrangement(userId, rows, groups, places);
    ghost var arranged := arrangement.Arranged();
    arrangement.RemoveGroup(groupId);
    DissolvedLists(arranged, places, groupId);
    now := arrangement.Arranged();
    error, after := SaveArranged(arrangement, rows, places, now);
  }

  lemma {:induction false} RowInGroup(rows: GoalRows, places: seq<Place>, group: GroupId, id: Id)
    requires Stored(rows, places) && id in GroupIds(places, group)
    ensures id in rows && rows[id].group == group
  {
    var k :| 0 <= k < |GroupIds(places, group)| && GroupIds(places, group)[k] == id;
    GroupRowsNumbered(rows, places, group, k);
  }

  /** The number of rows of a group is the length of its list. */
  function RowsIn(rows: GoalRows, group: GroupId): set<Id> { set id | id in rows && rows[id].group == group }

  lemma {:induction false} GroupCountIsLength(rows: GoalRows, places: seq<Place>, group: GroupId)
    requires Stored(rows, places)
    ensures |RowsIn(rows, group)| == |GroupIds(places, group)|
  {
    var ids := GroupIds(places, group);
    var members := RowsIn(rows, group);
    GroupIdsDistinct(places, group);
    DistinctSize(ids);
    forall id ensures id in members <==> id in Elements(ids) {
      InGroupIff(places, group, id);
      if id in members {
        assert id in Ids(places);
        var i := IndexOfId(places, id);
        assert places[i] == Place(id, group);
      }
      if id in ids {
        RowInGroup(rows, places, group, id);
      }
    }
    assert members == Elements(ids);
  }

  lemma {:induction false} RowCountIsLength(rows: GoalRows, places: seq<Place>)
    requires Stored(rows, places)
    ensures |rows| == |places|
  {
    DistinctSize(Ids(places));
    assert rows.Keys == Elements(Ids(places));
  }

  /** A new goal comes last in its group. */
  lemma {:induction false} StoredWithNew(rows: GoalRows, places: seq<Place>, id: Id, group: GroupId)
    requires Stored(rows, places) && id !in rows
    ensures Stored(rows[id := GoalRow(group, |GroupIds(places, group)| + 1)], places + [Place(id, group)])
    ensures Added(places + [Place(id, group)], places, id, group)
  {
    var place, more := Place(id, group), places + [Place(id, group)];
    IdsSnoc(places, place);
    forall other ensures GroupIds(more, other) == GroupIds(places, other) + (if other == group then [id] else []) {
      GroupIdsConcat(places, [place], other);
      GroupIdsOne(place, other);
    }
    CountIsLength(more, group, |more|);
    assert more[..|more|] == more;
    forall i | 0 <= i < |places| ensures Rank(more, i) == Rank(places, i) && places[i].id != id {
      CountPrefix(more, places[i].group, |places|, i + 1);
      assert more[..|places|] == places;
      assert Ids(places)[i] in rows;
    }
  }

  // ---------- the operations ----------

  class GoalUsecase {
    const userId: int
    var goals: GoalRows
    var groups: GroupRows
    ghost var places: seq<Place>
    ghost var order: seq<Id>

    constructor (userId: int)
      ensures this.userId == userId && Valid() && goals == map[] && groups == map[]
    {
      this.userId := userId;
      this.goals := map[];
      this.groups := map[];
      this.places := [];
      this.order := [];
    }

    /** The rows of every group are numbered 1, 2, 3, ..., as are the groups; goals are only in
        existing groups; the limits are kept. */
    ghost predicate Valid()
      reads this
    {
      && Stored(goals, places) && StoredGroups(groups, order)
      && |places| <= GOAL_MAX && |order| <= GROUP_MAX
      && InKnownGroups(places, groups)
    }

    /** The goals of a group, in order. */
    ghost function Listed(group: GroupId): seq<Id>
      reads this
    {
      GroupIds(places, group)
    }

    predicate OwnsGroup(group: GroupId)
      reads this
    {
      group.None? || group.value in groups
    }

    /** Takes the goal out of its group, whose other goals close up. */
    method DeleteGoal(id: Id) returns (error: Option<UsecaseError>)
      requires Valid()
      modifies this
      ensures Valid() && groups == old(groups) && order == old(order)
      ensures error == if id in old(goals) then None else Some(GoalNotFound)
      ensures error.Some? ==> goals == old(goals) && places == old(places)
      ensures error.None? ==> Deleted(places, old(places), id)
    {
      var after;
      ghost var now;
      error, after, now := DeleteStored(userId, goals, groups, places, id);
      if error.None? {
        goals := after;
        places := now;
      }
    }

    /** Puts a new goal last in its group. */
    method CreateGoal(id: Id, group: GroupId) returns (error: Option<UsecaseError>)
      requires Valid() && id !in goals
      modifies this
      ensures Valid() && groups == old(groups) && order == old(order)
      ensures error == if |old(goals)| >= 300 then Some(GoalLimitExceeded)
                       else if !old(OwnsGroup(group)) then Some(GoalGroupNotFound)
                       else None
      ensures error.Some? ==> goals == old(goals) && places == old(places)
      ensures error.None? ==> goals.Keys == old(goals.Keys) + {id}
      ensures error.None? ==> Added(places, old(places), id, group)
    {
      RowCountIsLength(goals, places);
      if |goals| >= GOAL_MAX {
        return Some(GoalLimitExceeded);
      }
      if !OwnsGroup(group) {
        return Some(GoalGroupNotFound);
      }
      var sortOrder := U16(|RowsIn(goals, group)| + 1);
      NewGoalFits(goals, places, groups, id, group, sortOrder);
      AddRow(id, group, sortOrder);
      return None;
    }

    method AddRow(id: Id, group: GroupId, sortOrder: nat)
      requires Stored(goals[id := GoalRow(group, sortOrder)], places + [Place(id, group)])
      requires StoredGroups(groups, order) && |order| <= GROUP_MAX && |places| < GOAL_MAX
      requires InKnownGroups(places + [Place(id, group)], groups)
      requires Added(places + [Place(id, group)], places, id, group)
      modifies this`goals, this`places
      ensures Valid() && Added(places, old(places), id, group) && goals.Keys == old(goals.Keys) + {id}
    {
      goals := goals[id := GoalRow(group, sortOrder)];
      places := places + [Place(id, group)];
    }

    /** Moves the goal last into the other group; in its own group nothing changes. */
    method UpdateGoal(id: Id, group: GroupId) returns (error: Option<UsecaseError>)
      requires Valid()
      modifies this
      ensures Valid() && groups == old(groups) && order == old(order)
      ensures error == if id !in old(goals) then Some(GoalNotFound)
                       else if !old(OwnsGroup(group)) then Some(GoalGroupNotFound)
                       else None
      ensures error.Some? || old(goals)[id].group == group ==> goals == old(goals) && places == old(places)
      ensures error.None? && old(goals)[id].group != group ==>
        MovedTo(places, old(places), id, old(goals)[id].group, group)
    {
      if id !in goals {
        return Some(GoalNotFound);
      }
      if !OwnsGroup(group) {
        return Some(GoalGroupNotFound);
      }
      var row := goals[id];
      if row.group != group {
        MoveAway(id, group);
      } else {
        goals := goals[id := row];
      }
      return None;
    }

    method MoveAway(id: Id, group: GroupId)
      requires Valid() && id in goals && goals[id].group != group && OwnsGroup(group)
      modifies this
      ensures Valid() && groups == old(groups) && order == old(order)
      ensures MovedTo(places, old(places), id, old(goals)[id].group, group)
    {
      var _, after, now, sortOrder := MoveStored(userId, goals, groups, places, id, group);
      MoveFits(after, now, places, groups, id, goals[id].group, group);
      Adopt(after[id := GoalRow(group, sortOrder)], now);
    }

    method Adopt(rows: GoalRows, ghost now: seq<Place>)
      requires StoredGroups(groups, order) && |order| <= GROUP_MAX
      requires Stored(rows, now) && |now| <= GOAL_MAX && InKnownGroups(now, groups)
      modifies this`goals, this`places
      ensures Valid() && places == now
    {
      goals := rows;
      places := now;
    }

    /** Gives the group the wanted order, which has to be one of its goals. */
    method ReorderGoals(group: GroupId, ids: seq<Id>) returns (error: Option<UsecaseError>)
      requires Valid()
      modifies this
      ensures Valid() && groups == old(groups) && order == old(order)
      ensures error == if !old(OwnsGroup(group)) then Some(GoalGroupNotFound)
                       else if !IsPermutation(ids, old(Listed(group))) then Some(BadGoalOrder)
                       else None
      ensures error.Some? ==> goals == old(goals) && places == old(places)
      ensures error.None? ==> ReorderedTo(places, old(places), group, ids)
    {
      if !OwnsGroup(group) {
        return Some(GoalGroupNotFound);
      }
      var after;
      ghost var now;
      error, after, now := ReorderStored(userId, goals, groups, places, group, ids);
      if error.None? {
        IdsMembers(now, places);
        PermutationIsEmpty(ids, Listed(group));
        goals := after;
        places := now;
      }
    }

    method CreateGroup(id: Id) returns (error: Option<UsecaseError>)
      requires Valid() && id !in groups
      modifies this
      ensures Valid() && goals == old(goals) && places == old(places)
      ensures error == if |old(groups)| >= 20 then Some(GoalGroupLimitExceeded) else None
      ensures order == if error.None? then old(order) + [id] else old(order)
      ensures error.Some? ==> groups == old(groups)
    {
      DistinctSize(order);
      assert groups.Keys == Elements(order);
      var count := |groups|;
      if count >= GROUP_MAX {
        return Some(GoalGroupLimitExceeded);
      }
      groups := groups[id := U16(count + 1)];
      order := order + [id];
      return None;
    }

    method ReorderGroups(ids: seq<Id>) returns (error: Option<UsecaseError>)
      requires Valid()
      modifies this
      ensures Valid() && goals == old(goals) && places == old(places)
      ensures error == if IsPermutation(ids, old(order)) then None else Some(BadGoalGroupOrder)
      ensures error.None? ==> order == ids && groups.Keys == old(groups.Keys)
      ensures error.Some? ==> order == old(order) && groups == old(groups)
    {
      var groupOrder := LoadGroupOrder(userId, groups, order);
      var refused := groupOrder.Reorder(ids);
      if refused.Some? {
        return Some(BadGoalGroupOrder);
      }
      error := SaveReorderedGroups(groupOrder, ids);
    }

    method SaveReorderedGroups(groupOrder: GoalGroupOrder, ids: seq<Id>) returns (error: Option<UsecaseError>)
      requires StoredGroups(groups, order) && |order| <= GROUP_MAX && IsPermutation(ids, order)
      requires groupOrder.Valid() && GroupIdsOf(groupOrder.groups) == ids
      modifies this`groups, this`order
      ensures error == None && StoredGroups(groups, order) && |order| <= GROUP_MAX
      ensures order == ids && groups.Keys == old(groups.Keys)
    {
      SameMembersOfPermutation(ids, order);
      var after;
      error, after := SaveGroupOrder(groups, groupOrder.groups);
      assert after.Keys == groups.Keys by {
        assert forall x :: x in after <==> x in ids;
      }
      groups := after;
      order := ids;
    }

    /** Dissolves the group: its goals go last among those without a group, and the other groups
        close up. */
    method DeleteGroup(id: Id) returns (error: Option<UsecaseError>)
      requires Valid()
      modifies this
      ensures Valid()
      ensures error == if id in old(groups) then None else Some(GoalGroupNotFound)
      ensures error.Some? ==>
        goals == old(goals) && groups == old(groups) && places == old(places) && order == old(order)
      ensures error.None? ==> Dissolved(places, old(places), id) && order == Drop(old(order), id)
    {
      var groupOrder := LoadGroupOrder(userId, groups, order);
      var missing := groupOrder.Remove(id);
      if missing.Some? {
        return Some(GoalGroupNotFound);
      }
      var _, after, now := DissolveStored(userId, goals, groups, places, id);
      error := SaveRemainingGroups(groupOrder, id);
      IdsMembers(now, places);
      DissolvedStaysKnown(now, places, old(groups), groups, id);
      goals := after;
      places := now;
    }

    method SaveRemainingGroups(groupOrder: GoalGroupOrder, id: Id) returns (error: Option<UsecaseError>)
      requires StoredGroups(groups, order) && |order| <= GROUP_MAX && id in groups
      requires groupOrder.Valid() && GroupIdsOf(groupOrder.groups) == Drop(order, id)
      modifies this`groups, this`order
      ensures error == None && StoredGroups(groups, order) && |order| <= GROUP_MAX
      ensures order == Drop(old(order), id)
      ensures groups.Keys == old(groups.Keys) - {id}
    {
      DropMembers(order, id);
      var after;
      error, after := SaveGroupOrder(groups - {id}, groupOrder.groups);
      assert after.Keys == groups.Keys - {id} by {
        assert forall x :: x in after <==> x in Drop(order, id);
      }
      groups := after;
      order := Drop(order, id);
    }
  }

  /** Goals are only in existing groups. */
  ghost predicate InKnownGroups(places: seq<Place>, groups: GroupRows) {
    forall group: GroupId :: group.Some? && GroupIds(places, group) != [] ==> group.value in groups
  }

  lemma {:induction false} AddedToKnown(
      after: seq<Place>, before: seq<Place>, groups: GroupRows, id: Id, group: GroupId)
    requires InKnownGroups(before, groups) && Added(after, before, id, group)
    requires group.None? || group.value in groups
    ensures InKnownGroups(after, groups)
  {
  }

  lemma {:induction false} MovedToKnown(
      after: seq<Place>, before: seq<Place>, groups: GroupRows, id: Id, from: GroupId, to: GroupId)
    requires InKnownGroups(before, groups) && MovedTo(after, before, id, from, to)
    requires to.None? || to.value in groups
    ensures InKnownGroups(after, groups)
  {
  }

  lemma {:induction false} DissolvedStaysKnown(
      after: seq<Place>, before: seq<Place>, groups: GroupRows, left: GroupRows, id: Id)
    requires InKnownGroups(before, groups) && Dissolved(after, before, id)
    requires left.Keys == groups.Keys - {id}
    ensures InKnownGroups(after, left)
  {
  }

  /** The moved goal's row already says what is saved last. */
  lemma {:induction false} MoveFits(
    after: GoalRows, now: seq<Place>, before: seq<Place>, groups: GroupRows, id: Id, from: GroupId, to: GroupId)
    requires Stored(after, now) && MovedTo(now, before, id, from, to)
    requires InKnownGroups(before, groups) && (to.None? || to.value in groups)
    ensures id in after && after[id := GoalRow(to, after[id].sortOrder)] == after
    ensures |now| == |before| && InKnownGroups(now, groups)
  {
    var ids := GroupIds(now, to);
    assert ids == GroupIds(before, to) + [id];
    assert ids[|ids| - 1] == id;
    RowInGroup(after, now, to, id);
    MovedToKnown(now, before, groups, id, from, to);
    IdsMembers(now, before);
  }

  lemma {:induction false} ListFits(places: seq<Place>, group: GroupId)
    requires |places| < GOAL_MAX
    ensures |GroupIds(places, group)| < GOAL_MAX
  {
    CountIsLength(places, group, |places|);
    assert places[..|places|] == places;
    CountBound(places, group, |places|);
  }

  lemma {:induction false} NewGoalFits(
    rows: GoalRows, places: seq<Place>, groups: GroupRows, id: Id, group: GroupId, sortOrder: nat)
    requires Stored(rows, places) && InKnownGroups(places, groups) && |places| < GOAL_MAX && id !in rows
    requires group.None? || group.value in groups
    requires sortOrder == U16(|RowsIn(rows, group)| + 1)
    ensures var more := places + [Place(id, group)];
      && Stored(rows[id := GoalRow(group, sortOrder)], more)
      && Added(more, places, id, group) && InKnownGroups(more, groups)
  {
    GroupCountIsLength(rows, places, group);
    ListFits(places, group);
    StoredWithNew(rows, places, id, group);
    AddedToKnown(places + [Place(id, group)], places, groups, id, group);
  }

  lemma {:induction false} PermutationIsEmpty(ids: seq<Id>, of: seq<Id>)
    requires IsPermutation(ids, of)
    ensures ids != [] ==> of != []
  {
    assert |multiset(ids)| == |multiset(of)|;
  }

  lemma {:induction false} SameMembersOfPermutation(ids: seq<Id>, of: seq<Id>)
    requires IsPermutation(ids, of)
    ensures |ids| == |of| && forall id :: id in ids <==> id in of
  {
    assert |multiset(ids)| == |multiset(of)|;
    assert forall id :: id in ids <==> id in multiset(ids);
    assert forall id :: id in of <==> id in multiset(of);
  }

  lemma {:induction false} DropMembers(ids: seq<Id>, id: Id)
    requires Distinct(ids)
    ensures |Drop(ids, id)| <= |ids| && forall x :: x in Drop(ids, id) <==> x in ids && x != id
  {
    DropCount(ids, id);
    assert |multiset(Drop(ids, id))| <= |multiset(ids)|;
    forall x ensures x in Drop(ids, id) <==> x in ids && x != id {
      assert x in Drop(ids, id) <==> multiset(Drop(ids, id))[x] > 0;
      assert x in ids <==> multiset(ids)[x] > 0;
    }
  }
}
