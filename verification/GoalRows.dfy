/** The stored goals and goal groups of a user, and the order in which they are listed. */
module GoalRows {
  import opened Common
  import opened Sequences
  import opened Placements

  const GOAL_MAX: nat := 300
  const GROUP_MAX: nat := 20

  datatype GoalRow = GoalRow(group: GroupId, sortOrder: nat)

  type GoalRows = map<Id, GoalRow>
  type GroupRows = map<Id, nat>

  /** The rows are the listed goals, each with its rank in its group. */
  ghost predicate Stored(rows: GoalRows, places: seq<Place>) {
    && Distinct(Ids(places))
    && (forall id :: id in rows <==> id in Ids(places))
    && (forall i :: 0 <= i < |places| ==>
          places[i].id in rows && rows[places[i].id] == GoalRow(places[i].group, Rank(places, i)))
  }

  /** The group rows are numbered in this order. */
  ghost predicate StoredGroups(rows: GroupRows, order: seq<Id>) {
    && Distinct(order)
    && (forall id :: id in rows <==> id in order)
    && (forall k :: 0 <= k < |order| ==> order[k] in rows && rows[order[k]] == k + 1)
  }

  function PlacesOf(rows: GoalRows, ids: seq<Id>): (places: seq<Place>)
    requires forall i :: 0 <= i < |ids| ==> ids[i] in rows
    ensures |places| == |ids| && Ids(places) == ids
    ensures forall i :: 0 <= i < |ids| ==> places[i] == Place(ids[i], rows[ids[i]].group)
  {
    seq(|ids|, i requires 0 <= i < |ids| => Place(ids[i], rows[ids[i]].group))
  }

  // ---------- listing ----------

  /** Goals are listed by the order of their group, goals without a group last, then by their
      own order and ID. */
  predicate ListedBefore(rows: GoalRows, groups: GroupRows, a: Id, b: Id)
    requires a in rows && b in rows
  {
    var x, y := rows[a], rows[b];
    var gx := if x.group.Some? && x.group.value in groups then groups[x.group.value] else 0;
    var gy := if y.group.Some? && y.group.value in groups then groups[y.group.value] else 0;
    if x.group.None? != y.group.None? then x.group.Some?
    else if gx != gy then gx < gy
    else if x.sortOrder != y.sortOrder then x.sortOrder < y.sortOrder
    else a <= b
  }

  ghost predicate IsListing(rows: GoalRows, groups: GroupRows, ids: seq<Id>) {
    && Distinct(ids) && (forall id :: id in rows <==> id in ids)
    && forall i, j :: 0 <= i < j < |ids| ==>
         ids[i] in rows && ids[j] in rows && ListedBefore(rows, groups, ids[i], ids[j])
  }

  method InsertListed(rows: GoalRows, groups: GroupRows, ids: seq<Id>, id: Id) returns (more: seq<Id>)
    requires id in rows && id !in ids && Distinct(ids) && forall x :: x in ids ==> x in rows
    requires forall i, j :: 0 <= i < j < |ids| ==> ListedBefore(rows, groups, ids[i], ids[j])
    ensures Distinct(more) && forall x :: x in more <==> x in ids || x == id
    ensures forall i, j :: 0 <= i < j < |more| ==>
      more[i] in rows && more[j] in rows && ListedBefore(rows, groups, more[i], more[j])
  {
    var at := 0;
    while at < |ids| && ListedBefore(rows, groups, ids[at], id)
      invariant at <= |ids| && forall i :: 0 <= i < at ==> ListedBefore(rows, groups, ids[i], id)
    {
      at := at + 1;
    }
    forall j | at <= j < |ids| ensures ListedBefore(rows, groups, id, ids[j]) {
      assert j > at ==> ListedBefore(rows, groups, ids[at], ids[j]);
    }
    more := ids[..at] + [id] + ids[at..];
    assert forall x :: x in ids ==> x in ids[..at] || x in ids[at..];
    forall i, j | 0 <= i < j < |more| ensures more[i] != more[j] && more[i] in rows && more[j] in rows
        && ListedBefore(rows, groups, more[i], more[j])
    {
      assert more[i] == if i < at then ids[i] else if i == at then id else ids[i - 1];
      assert more[j] == if j < at then ids[j] else if j == at then id else ids[j - 1];
    }
  }

  method ListGoals(rows: GoalRows, groups: GroupRows) returns (ids: seq<Id>)
    ensures IsListing(rows, groups, ids)
    ensures forall i, j :: 0 <= i < j < |ids| ==>
      && ids[i] in rows && ids[j] in rows
      && (rows[ids[i]].group == None ==> rows[ids[j]].group == None)
      && (rows[ids[i]].group == rows[ids[j]].group ==> rows[ids[i]].sortOrder <= rows[ids[j]].sortOrder)
      && (rows[ids[i]].group.Some? && rows[ids[j]].group.Some?
          && rows[ids[i]].group.value in groups && rows[ids[j]].group.value in groups ==>
            groups[rows[ids[i]].group.value] <= groups[rows[ids[j]].group.value])
  {
    ids := [];
    var left := rows.Keys;
    while left != {}
      invariant left <= rows.Keys && Distinct(ids) && forall id :: id in ids <==> id in rows && id !in left
      invariant forall i, j :: 0 <= i < j < |ids| ==> ListedBefore(rows, groups, ids[i], ids[j])
      decreases left
    {
      var id :| id in left;
      ids := InsertListed(rows, groups, ids, id);
      left := left - {id};
    }
  }

  // ---------- listing gives every group its order back ----------

  lemma {:induction false} RisingFromOne(orders: seq<nat>, k: nat)
    requires k < |orders|
    requires forall i :: 0 <= i < |orders| ==> 1 <= orders[i] <= |orders|
    requires forall i, j :: 0 <= i < j < |orders| ==> orders[i] < orders[j]
    ensures k + 1 <= orders[k]
  {
    if k > 0 {
      RisingFromOne(orders, k - 1);
    }
  }

  lemma {:induction false} RisingToLength(orders: seq<nat>, k: nat)
    requires k < |orders|
    requires forall i :: 0 <= i < |orders| ==> 1 <= orders[i] <= |orders|
    requires forall i, j :: 0 <= i < j < |orders| ==> orders[i] < orders[j]
    ensures orders[k] <= k + 1
    decreases |orders| - k
  {
    if k < |orders| - 1 {
      RisingToLength(orders, k + 1);
    }
  }

  /** The goals of a group carry 1, 2, 3, ... in the rows. */
  lemma {:induction false} GroupRowsNumbered(rows: GoalRows, places: seq<Place>, group: GroupId, k: nat)
    requires Stored(rows, places) && k < |GroupIds(places, group)|
    ensures GroupIds(places, group)[k] in rows
    ensures rows[GroupIds(places, group)[k]] == GoalRow(group, k + 1)
  {
    var i := PositionHasPlace(places, group, k);
  }

  lemma {:induction false} InGroupIff(places: seq<Place>, group: GroupId, id: Id)
    ensures id in GroupIds(places, group) <==> Place(id, group) in places
  {
    if id in GroupIds(places, group) {
      var k :| 0 <= k < |GroupIds(places, group)| && GroupIds(places, group)[k] == id;
      var i := PositionHasPlace(places, group, k);
    }
    if Place(id, group) in places {
      var i :| 0 <= i < |places| && places[i] == Place(id, group);
      RankIsPosition(places, i);
    }
  }

  lemma {:induction false} SameMembers(rows: GoalRows, places: seq<Place>, ids: seq<Id>, group: GroupId, id: Id)
    requires Stored(rows, places) && (forall x :: x in rows <==> x in ids)
    ensures forall i :: 0 <= i < |ids| ==> ids[i] in rows
    ensures id in GroupIds(places, group) <==> id in GroupIds(PlacesOf(rows, ids), group)
  {
    var listed := PlacesOf(rows, ids);
    InGroupIff(places, group, id);
    InGroupIff(listed, group, id);
    if Place(id, group) in places {
      var i :| 0 <= i < |places| && places[i] == Place(id, group);
      assert id in rows && id in ids;
      var j :| 0 <= j < |ids| && ids[j] == id;
      assert listed[j] == Place(id, group);
    }
    if Place(id, group) in listed {
      var j :| 0 <= j < |listed| && listed[j] == Place(id, group);
      assert id in Ids(places);
      var i :| 0 <= i < |places| && Ids(places)[i] == id;
      assert places[i] == Place(id, group);
    }
  }

  /** The group's goals are listed in rising order. */
  lemma {:induction false} ListedRising(
      rows: GoalRows, groups: GroupRows, places: seq<Place>, ids: seq<Id>, group: GroupId, a: nat, b: nat)
    requires Stored(rows, places) && IsListing(rows, groups, ids)
    requires forall i :: 0 <= i < |ids| ==> ids[i] in rows
    requires a < b < |GroupIds(PlacesOf(rows, ids), group)|
    ensures var listed := GroupIds(PlacesOf(rows, ids), group);
      && listed[a] in rows && listed[b] in rows
      && rows[listed[a]].sortOrder < rows[listed[b]].sortOrder
  {
    var all := PlacesOf(rows, ids);
    var listed := GroupIds(all, group);
    var i, j := PositionsRise(all, group, a, b);
    assert ListedBefore(rows, groups, ids[i], ids[j]);
    var k := PlaceOfListed(rows, places, ids, i);
    var l := PlaceOfListed(rows, places, ids, j);
    RankIsPosition(places, k);
    RankIsPosition(places, l);
    assert ids[i] != ids[j];
  }

  lemma {:induction false} PlaceOfListed(rows: GoalRows, places: seq<Place>, ids: seq<Id>, i: nat) returns (k: nat)
    requires Stored(rows, places) && i < |ids| && forall j :: 0 <= j < |ids| ==> ids[j] in rows
    ensures k < |places| && places[k] == PlacesOf(rows, ids)[i] && rows[ids[i]].sortOrder == Rank(places, k)
  {
    assert ids[i] in Ids(places);
    k :| 0 <= k < |places| && Ids(places)[k] == ids[i];
  }

  /** Later in the group's order is later in the list. */
  lemma {:induction false} PositionsRise(places: seq<Place>, group: GroupId, a: nat, b: nat) returns (i: nat, j: nat)
    requires a < b < |GroupIds(places, group)|
    ensures i < j < |places| && places[i].group == group == places[j].group
    ensures places[i].id == GroupIds(places, group)[a] && places[j].id == GroupIds(places, group)[b]
  {
    i := PositionHasPlace(places, group, a);
    j := PositionHasPlace(places, group, b);
    CountGrows(places, group, i + 1, j + 1);
  }

  lemma {:induction false} CountGrows(places: seq<Place>, group: GroupId, m: nat, n: nat)
    requires m <= |places| && n <= |places| && Count(places, group, m) < Count(places, group, n)
    ensures m < n
    decreases m
  {
    if n <= m && m > 0 {
      if n < m {
        CountGrows(places, group, m - 1, n);
      }
    }
  }

  lemma {:induction false} GroupsHaveSameGoals(
      rows: GoalRows, groups: GroupRows, places: seq<Place>, ids: seq<Id>, group: GroupId)
    requires Stored(rows, places) && IsListing(rows, groups, ids)
    ensures forall i :: 0 <= i < |ids| ==> ids[i] in rows
    ensures multiset(GroupIds(places, group)) == multiset(GroupIds(PlacesOf(rows, ids), group))
    ensures |GroupIds(places, group)| == |GroupIds(PlacesOf(rows, ids), group)|
  {
    var stored, listed := GroupIds(places, group), GroupIds(PlacesOf(rows, ids), group);
    GroupIdsDistinct(places, group);
    GroupIdsDistinct(PlacesOf(rows, ids), group);
    forall id ensures id in stored <==> id in listed {
      SameMembers(rows, places, ids, group, id);
    }
    SameElements(stored, listed);
    assert |multiset(stored)| == |multiset(listed)|;
  }

  lemma {:induction false} MemberNumbered(rows: GoalRows, places: seq<Place>, group: GroupId, id: Id) returns (k: nat)
    requires Stored(rows, places) && id in multiset(GroupIds(places, group))
    ensures k < |GroupIds(places, group)| && GroupIds(places, group)[k] == id
    ensures id in rows && rows[id].sortOrder == k + 1
  {
    k :| 0 <= k < |GroupIds(places, group)| && GroupIds(places, group)[k] == id;
    GroupRowsNumbered(rows, places, group, k);
  }

  /** Rising orders between 1 and their number are 1, 2, 3, ... */
  lemma {:induction false} ListedNumbered(
      rows: GoalRows, groups: GroupRows, places: seq<Place>, ids: seq<Id>, group: GroupId, k: nat)
    requires Stored(rows, places) && IsListing(rows, groups, ids)
    requires forall i :: 0 <= i < |ids| ==> ids[i] in rows
    requires k < |GroupIds(PlacesOf(rows, ids), group)|
    requires forall x :: x in GroupIds(PlacesOf(rows, ids), group) ==> x in rows
    ensures rows[GroupIds(PlacesOf(rows, ids), group)[k]].sortOrder == k + 1
  {
    var listed := GroupIds(PlacesOf(rows, ids), group);
    GroupsHaveSameGoals(rows, groups, places, ids, group);
    var orders := seq(|listed|, i requires 0 <= i < |listed| => rows[listed[i]].sortOrder);
    forall i | 0 <= i < |orders| ensures 1 <= orders[i] <= |orders| {
      assert listed[i] in multiset(listed);
      var s := MemberNumbered(rows, places, group, listed[i]);
    }
    forall a, b | 0 <= a < b < |orders| ensures orders[a] < orders[b] {
      ListedRising(rows, groups, places, ids, group, a, b);
    }
    RisingFromOne(orders, k);
    RisingToLength(orders, k);
    assert orders[k] == k + 1;
  }

  lemma {:induction false} MembersHaveRows(rows: GoalRows, places: seq<Place>, group: GroupId, ids: seq<Id>)
    requires Stored(rows, places) && multiset(ids) == multiset(GroupIds(places, group))
    ensures forall id :: id in ids ==> id in rows
  {
    forall id | id in ids ensures id in rows {
      assert id in multiset(ids);
      var k := MemberNumbered(rows, places, group, id);
    }
  }

  lemma {:induction false} ListedAt(
      rows: GoalRows, groups: GroupRows, places: seq<Place>, ids: seq<Id>, group: GroupId, k: nat)
    requires Stored(rows, places) && IsListing(rows, groups, ids)
    requires forall i :: 0 <= i < |ids| ==> ids[i] in rows
    requires k < |GroupIds(PlacesOf(rows, ids), group)|
    requires multiset(GroupIds(places, group)) == multiset(GroupIds(PlacesOf(rows, ids), group))
    ensures k < |GroupIds(places, group)|
    ensures GroupIds(PlacesOf(rows, ids), group)[k] == GroupIds(places, group)[k]
  {
    var listed := GroupIds(PlacesOf(rows, ids), group);
    MembersHaveRows(rows, places, group, listed);
    ListedNumbered(rows, groups, places, ids, group, k);
    assert listed[k] in multiset(listed);
    var s := MemberNumbered(rows, places, group, listed[k]);
  }

  lemma {:induction false} SameItems<T>(a: seq<T>, b: seq<T>)
    requires |a| == |b| && forall k :: 0 <= k < |a| ==> a[k] == b[k]
    ensures a == b
  {
  }

  /** Listing the rows gives every group its goals in their stored order. */
  lemma {:induction false} ListingKeepsGroups(
      rows: GoalRows, groups: GroupRows, places: seq<Place>, ids: seq<Id>, group: GroupId)
    requires Stored(rows, places) && IsListing(rows, groups, ids)
    ensures forall i :: 0 <= i < |ids| ==> ids[i] in rows
    ensures GroupIds(PlacesOf(rows, ids), group) == GroupIds(places, group)
  {
    GroupsHaveSameGoals(rows, groups, places, ids, group);
    forall k | 0 <= k < |GroupIds(places, group)|
      ensures GroupIds(PlacesOf(rows, ids), group)[k] == GroupIds(places, group)[k]
    {
      ListedAt(rows, groups, places, ids, group, k);
    }
    SameItems(GroupIds(PlacesOf(rows, ids), group), GroupIds(places, group));
  }
}
