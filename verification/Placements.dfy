/** The order of a user's goals as plain values: the list of goals with the group of each.
    A goal's position inside its group is its rank among the listed goals of that group. */
module Placements {
  import opened Common
  import opened Sequences

  type Id = nat
  type GroupId = Option<Id>

  datatype Place = Place(id: Id, group: GroupId)

  /** Sort orders are stored in 16 bits. */
  function U16(n: nat): nat { n % 0x1_0000 }

  function Ids(places: seq<Place>): (ids: seq<Id>)
    ensures |ids| == |places| && forall i :: 0 <= i < |ids| ==> ids[i] == places[i].id
  {
    Map((place: Place) => place.id, places)
  }

  /** The goals of one group, in order. */
  function GroupIds(places: seq<Place>, group: GroupId): seq<Id> {
    if places == [] then []
    else GroupIds(places[..|places| - 1], group)
         + (if places[|places| - 1].group == group then [places[|places| - 1].id] else [])
  }

  /** How many of the first n goals belong to the group. */
  function Count(places: seq<Place>, group: GroupId, n: nat): nat
    requires n <= |places|
  {
    if n == 0 then 0
    else Count(places, group, n - 1) + (if places[n - 1].group == group then 1 else 0)
  }

  /** The 1-based rank of a listed goal within its group. */
  function Rank(places: seq<Place>, i: nat): nat
    requires i < |places|
  {
    Count(places, places[i].group, i + 1)
  }

  lemma {:induction false} CountIsLength(places: seq<Place>, group: GroupId, n: nat)
    requires n <= |places|
    ensures Count(places, group, n) == |GroupIds(places[..n], group)|
    decreases n
  {
    if n > 0 {
      CountIsLength(places, group, n - 1);
      assert places[..n][..n - 1] == places[..n - 1];
    }
  }

  lemma {:induction false} CountPrefix(places: seq<Place>, group: GroupId, m: nat, n: nat)
    requires n <= m <= |places|
    ensures Count(places[..m], group, n) == Count(places, group, n)
    decreases n
  {
    if n > 0 {
      CountPrefix(places, group, m, n - 1);
    }
  }

  lemma {:induction false} CountBound(places: seq<Place>, group: GroupId, n: nat)
    requires n <= |places|
    ensures Count(places, group, n) <= n
    decreases n
  {
    if n > 0 {
      CountBound(places, group, n - 1);
    }
  }

  lemma {:induction false} GroupIdsSnoc(places: seq<Place>, i: nat, group: GroupId)
    requires i < |places|
    ensures GroupIds(places[..i + 1], group)
         == GroupIds(places[..i], group) + (if places[i].group == group then [places[i].id] else [])
  {
    assert places[..i + 1][..i] == places[..i];
  }

  lemma {:induction false} GroupIdsConcat(a: seq<Place>, b: seq<Place>, group: GroupId)
    ensures GroupIds(a + b, group) == GroupIds(a, group) + GroupIds(b, group)
    decreases |b|
  {
    if b == [] {
      assert a + b == a;
    } else {
      var n := |b| - 1;
      assert (a + b)[..|a + b| - 1] == a + b[..n];
      GroupIdsConcat(a, b[..n], group);
    }
  }

  lemma {:induction false} GroupIdsSplit(places: seq<Place>, i: nat, group: GroupId)
    requires i <= |places|
    ensures GroupIds(places, group) == GroupIds(places[..i], group) + GroupIds(places[i..], group)
  {
    assert places == places[..i] + places[i..];
    GroupIdsConcat(places[..i], places[i..], group);
  }

  /** A listed goal sits in its group's list at its rank. */
  lemma {:induction false} RankIsPosition(places: seq<Place>, i: nat)
    requires i < |places|
    ensures 1 <= Rank(places, i) <= |GroupIds(places, places[i].group)|
    ensures GroupIds(places, places[i].group)[Rank(places, i) - 1] == places[i].id
  {
    CountIsLength(places, places[i].group, i + 1);
    CountIsLength(places, places[i].group, i);
    GroupIdsSnoc(places, i, places[i].group);
    GroupIdsSplit(places, i + 1, places[i].group);
  }

  lemma {:induction false} PositionHasPlace(places: seq<Place>, group: GroupId, k: nat) returns (i: nat)
    requires k < |GroupIds(places, group)|
    ensures i < |places| && places[i] == Place(GroupIds(places, group)[k], group)
    ensures Rank(places, i) == k + 1
    decreases |places|
  {
    var n := |places| - 1;
    if k < |GroupIds(places[..n], group)| {
      i := PositionHasPlace(places[..n], group, k);
      CountPrefix(places, group, n, i + 1);
    } else {
      i := n;
      CountIsLength(places, group, n + 1);
      assert places[..n + 1] == places;
    }
  }

  lemma {:induction false} GroupIdsDistinct(places: seq<Place>, group: GroupId)
    requires Distinct(Ids(places))
    ensures Distinct(GroupIds(places, group))
  {
    var ids := GroupIds(places, group);
    forall a, b | 0 <= a < b < |ids| ensures ids[a] != ids[b] {
      var i := PositionHasPlace(places, group, a);
      var j := PositionHasPlace(places, group, b);
      assert Ids(places)[i] == ids[a] && Ids(places)[j] == ids[b];
      if i == j {
        assert false;
      }
    }
  }

  // ---------- the four changes ----------

  /** The group follows the given order in the list positions it already has. */
  function Reordered(places: seq<Place>, group: GroupId, ids: seq<Id>): seq<Place>
    requires |ids| == |GroupIds(places, group)|
  {
    seq(|places|, i requires 0 <= i < |places| =>
      if places[i].group == group
      then (RankIsPosition(places, i); Place(ids[Rank(places, i) - 1], group))
      else places[i])
  }

  function Without(places: seq<Place>, id: Id): seq<Place> {
    if places == [] then []
    else Without(places[..|places| - 1], id)
         + (if places[|places| - 1].id == id then [] else [places[|places| - 1]])
  }

  function Moved(places: seq<Place>, id: Id, destination: GroupId): seq<Place> {
    Without(places, id) + [Place(id, destination)]
  }

  function Outside(places: seq<Place>, group: GroupId): seq<Place> {
    if places == [] then []
    else Outside(places[..|places| - 1], group)
         + (if places[|places| - 1].group == group then [] else [places[|places| - 1]])
  }

  function Ungrouped(ids: seq<Id>): seq<Place> {
    seq(|ids|, i requires 0 <= i < |ids| => Place(ids[i], None))
  }

  function GroupDissolved(places: seq<Place>, group: Id): seq<Place> {
    Outside(places, Some(group)) + Ungrouped(GroupIds(places, Some(group)))
  }

  ghost predicate IsPermutation(ids: seq<Id>, of: seq<Id>) {
    multiset(ids) == multiset(of)
  }

  // ---------- what they keep ----------

  lemma {:induction false} ReorderedPrefix(places: seq<Place>, group: GroupId, ids: seq<Id>, n: nat)
    requires |ids| == |GroupIds(places, group)| && n <= |places|
    ensures |GroupIds(places[..n], group)| <= |ids|
    ensures GroupIds(Reordered(places, group, ids)[..n], group)
         == ids[..|GroupIds(places[..n], group)|]
    ensures forall other :: other != group ==>
      GroupIds(Reordered(places, group, ids)[..n], other) == GroupIds(places[..n], other)
    decreases n
  {
    GroupIdsSplit(places, n, group);
    if n > 0 {
      var i := n - 1;
      ReorderedPrefix(places, group, ids, i);
      var r := Reordered(places, group, ids);
      GroupIdsSnoc(places, i, group);
      GroupIdsSnoc(r, i, group);
      CountIsLength(places, group, i);
      forall other | other != group
        ensures GroupIds(r[..n], other) == GroupIds(places[..n], other)
      {
        GroupIdsSnoc(places, i, other);
        GroupIdsSnoc(r, i, other);
      }
    }
  }

  /** Reordering gives the group exactly the given order and leaves every other group, and
      every other list position, as it was. */
  lemma {:induction false} ReorderedGroups(places: seq<Place>, group: GroupId, ids: seq<Id>)
    requires |ids| == |GroupIds(places, group)|
    ensures GroupIds(Reordered(places, group, ids), group) == ids
    ensures forall other :: other != group ==>
      GroupIds(Reordered(places, group, ids), other) == GroupIds(places, other)
  {
    ReorderedPrefix(places, group, ids, |places|);
    assert places[..|places|] == places;
    var r := Reordered(places, group, ids);
    assert r[..|r|] == r;
  }

  lemma {:induction false} WithoutGroups(places: seq<Place>, id: Id, group: GroupId)
    ensures GroupIds(Without(places, id), group)
         == Drop(GroupIds(places, group), id)
    decreases |places|
  {
    if places != [] {
      var n := |places| - 1;
      WithoutGroups(places[..n], id, group);
      var last := if places[n].id == id then [] else [places[n]];
      GroupIdsConcat(Without(places[..n], id), last, group);
      DropConcat(GroupIds(places[..n], group), if places[n].group == group then [places[n].id] else [], id);
      if last != [] {
        assert last[..0] == [];
      }
    }
  }

  function Drop(ids: seq<Id>, id: Id): seq<Id> {
    if ids == [] then []
    else (if ids[0] == id then [] else [ids[0]]) + Drop(ids[1..], id)
  }

  lemma {:induction false} DropConcat(a: seq<Id>, b: seq<Id>, id: Id)
    ensures Drop(a + b, id) == Drop(a, id) + Drop(b, id)
    decreases |a|
  {
    if a == [] {
      assert a + b == b;
    } else {
      assert (a + b)[1..] == a[1..] + b;
      DropConcat(a[1..], b, id);
    }
  }

  lemma {:induction false} DropAbsent(ids: seq<Id>, id: Id)
    requires id !in ids
    ensures Drop(ids, id) == ids
    decreases |ids|
  {
    if ids != [] {
      DropAbsent(ids[1..], id);
    }
  }

  lemma {:induction false} GroupIdsOne(place: Place, group: GroupId)
    ensures GroupIds([place], group) == if place.group == group then [place.id] else []
  {
  }

  /** A moved goal goes to the tail of its new group; it leaves its old group, whose other
      goals keep their order; all further groups stay as they are. */
  lemma {:induction false} MovedGroups(places: seq<Place>, i: nat, destination: GroupId)
    requires i < |places| && Distinct(Ids(places)) && places[i].group != destination
    ensures var moved := Moved(places, places[i].id, destination);
      && GroupIds(moved, destination) == GroupIds(places, destination) + [places[i].id]
      && GroupIds(moved, places[i].group) == Drop(GroupIds(places, places[i].group), places[i].id)
      && forall other :: other != destination && other != places[i].group ==>
           GroupIds(moved, other) == GroupIds(places, other)
  {
    var id := places[i].id;
    forall group ensures GroupIds(Moved(places, id, destination), group)
        == Drop(GroupIds(places, group), id) + (if group == destination then [id] else [])
    {
      GroupIdsConcat(Without(places, id), [Place(id, destination)], group);
      GroupIdsOne(Place(id, destination), group);
      WithoutGroups(places, id, group);
    }
    forall group | group != places[i].group ensures Drop(GroupIds(places, group), id) == GroupIds(places, group) {
      NotInOtherGroup(places, i, group);
      DropAbsent(GroupIds(places, group), id);
    }
  }

  lemma {:induction false} NotInOtherGroup(places: seq<Place>, i: nat, group: GroupId)
    requires i < |places| && Distinct(Ids(places)) && group != places[i].group
    ensures places[i].id !in GroupIds(places, group)
  {
    var ids := GroupIds(places, group);
    forall k | 0 <= k < |ids| ensures ids[k] != places[i].id {
      var j := PositionHasPlace(places, group, k);
      assert Ids(places)[j] == ids[k] && j != i;
    }
  }

  lemma {:induction false} OutsideGroups(places: seq<Place>, group: GroupId, other: GroupId)
    ensures GroupIds(Outside(places, group), other)
         == if other == group then [] else GroupIds(places, other)
    decreases |places|
  {
    if places != [] {
      var n := |places| - 1;
      OutsideGroups(places[..n], group, other);
      var last := if places[n].group == group then [] else [places[n]];
      GroupIdsConcat(Outside(places[..n], group), last, other);
      if last != [] {
        GroupIdsOne(places[n], other);
      }
    }
  }

  lemma {:induction false} UngroupedGroups(ids: seq<Id>, group: GroupId)
    ensures GroupIds(Ungrouped(ids), group) == if group == None then ids else []
    decreases |ids|
  {
    if ids != [] {
      var n := |ids| - 1;
      UngroupedGroups(ids[..n], group);
      assert Ungrouped(ids)[..n] == Ungrouped(ids[..n]);
    }
  }

  /** Dissolving a group appends its goals, in their order, to the ungrouped ones and leaves
      every other group as it is. */
  lemma {:induction false} DissolvedGroups(places: seq<Place>, group: Id)
    ensures var after := GroupDissolved(places, group);
      && GroupIds(after, None) == GroupIds(places, None) + GroupIds(places, Some(group))
      && GroupIds(after, Some(group)) == []
      && forall other :: other != None && other != Some(group) ==>
           GroupIds(after, other) == GroupIds(places, other)
  {
    forall other ensures GroupIds(GroupDissolved(places, group), other)
        == (if other == Some(group) then [] else GroupIds(places, other))
           + (if other == None then GroupIds(places, Some(group)) else [])
    {
      GroupIdsConcat(Outside(places, Some(group)), Ungrouped(GroupIds(places, Some(group))), other);
      OutsideGroups(places, Some(group), other);
      UngroupedGroups(GroupIds(places, Some(group)), other);
    }
  }

  // ---------- nothing is lost or doubled ----------

  lemma {:induction false} IdsSnoc(places: seq<Place>, place: Place)
    ensures Ids(places + [place]) == Ids(places) + [place.id]
  {
  }

  lemma {:induction false} IdsConcat(a: seq<Place>, b: seq<Place>)
    ensures Ids(a + b) == Ids(a) + Ids(b)
  {
  }

  lemma {:induction false} OutsideIds(places: seq<Place>, group: GroupId)
    ensures multiset(Ids(places)) == multiset(Ids(Outside(places, group))) + multiset(GroupIds(places, group))
    decreases |places|
  {
    if places != [] {
      var n := |places| - 1;
      var init, last := places[..n], places[n];
      OutsideIds(init, group);
      assert places == init + [last];
      IdsSnoc(init, last);
      assert multiset(Ids(places)) == multiset(Ids(init)) + multiset{last.id};
      if last.group == group {
        assert Outside(places, group) == Outside(init, group);
        assert GroupIds(places, group) == GroupIds(init, group) + [last.id];
      } else {
        IdsSnoc(Outside(init, group), last);
        assert Outside(places, group) == Outside(init, group) + [last];
        assert GroupIds(places, group) == GroupIds(init, group);
      }
    }
  }

  /** Every goal is still there once after its group was dissolved. */
  lemma {:induction false} DissolvedKeepsGoals(places: seq<Place>, group: Id)
    requires Distinct(Ids(places))
    ensures multiset(Ids(GroupDissolved(places, group))) == multiset(Ids(places))
    ensures Distinct(Ids(GroupDissolved(places, group)))
  {
    var ids := GroupIds(places, Some(group));
    OutsideIds(places, Some(group));
    IdsConcat(Outside(places, Some(group)), Ungrouped(ids));
    assert Ids(Ungrouped(ids)) == ids;
    DistinctPermutation(Ids(places), Ids(GroupDissolved(places, group)));
  }

  lemma {:induction false} WithoutIds(places: seq<Place>, id: Id)
    ensures Ids(Without(places, id)) == Drop(Ids(places), id)
    decreases |places|
  {
    if places != [] {
      var n := |places| - 1;
      WithoutIds(places[..n], id);
      assert places == places[..n] + [places[n]];
      IdsSnoc(places[..n], places[n]);
      IdsSnoc(Without(places[..n], id), places[n]);
      DropConcat(Ids(places[..n]), [places[n].id], id);
    }
  }

  lemma {:induction false} DropCount(ids: seq<Id>, id: Id)
    ensures multiset(Drop(ids, id)) == multiset(ids)[id := 0]
    decreases |ids|
  {
    if ids != [] {
      assert ids == [ids[0]] + ids[1..];
      DropCount(ids[1..], id);
    }
  }

  /** Removing drops exactly the one goal. */
  lemma {:induction false} WithoutDropsOne(places: seq<Place>, i: nat)
    requires i < |places| && Distinct(Ids(places))
    ensures multiset(Ids(Without(places, places[i].id))) == multiset(Ids(places)) - multiset{places[i].id}
    ensures Distinct(Ids(Without(places, places[i].id)))
    ensures |Without(places, places[i].id)| == |places| - 1
  {
    var id := places[i].id;
    var ids := Ids(places);
    WithoutIds(places, id);
    DropCount(ids, id);
    assert ids[i] == id && id in ids;
    DistinctCount(ids, id);
    assert multiset(ids)[id] == 1;
    assert multiset(Drop(ids, id)) == multiset(ids) - multiset{id};
    assert |multiset(Drop(ids, id))| == |multiset(ids)| - 1;
    forall x | x in Drop(ids, id) ensures multiset(Drop(ids, id))[x] <= 1 {
      DistinctCount(ids, x);
    }
    DistinctByCount(Drop(ids, id));
  }

  /** Every goal is still there once after a move. */
  lemma {:induction false} MovedKeepsGoals(places: seq<Place>, i: nat, destination: GroupId)
    requires i < |places| && Distinct(Ids(places))
    ensures multiset(Ids(Moved(places, places[i].id, destination))) == multiset(Ids(places))
    ensures Distinct(Ids(Moved(places, places[i].id, destination)))
  {
    var id := places[i].id;
    WithoutDropsOne(places, i);
    IdsSnoc(Without(places, id), Place(id, destination));
    assert Ids(places)[i] == id && id in multiset(Ids(places));
    DistinctPermutation(Ids(places), Ids(Moved(places, id, destination)));
  }

  lemma {:induction false} ReorderedOutside(places: seq<Place>, group: GroupId, ids: seq<Id>, n: nat)
    requires |ids| == |GroupIds(places, group)| && n <= |places|
    ensures Outside(Reordered(places, group, ids)[..n], group) == Outside(places[..n], group)
    decreases n
  {
    if n > 0 {
      var r := Reordered(places, group, ids);
      ReorderedOutside(places, group, ids, n - 1);
      assert r[..n][..n - 1] == r[..n - 1] && places[..n][..n - 1] == places[..n - 1];
    }
  }

  /** Every goal is still there once after its group was reordered. */
  lemma {:induction false} ReorderedKeepsGoals(places: seq<Place>, group: GroupId, ids: seq<Id>)
    requires Distinct(Ids(places)) && IsPermutation(ids, GroupIds(places, group))
    ensures |ids| == |GroupIds(places, group)|
    ensures multiset(Ids(Reordered(places, group, ids))) == multiset(Ids(places))
    ensures Distinct(Ids(Reordered(places, group, ids)))
  {
    assert |multiset(ids)| == |multiset(GroupIds(places, group))|;
    var r := Reordered(places, group, ids);
    ReorderedOutside(places, group, ids, |places|);
    assert places[..|places|] == places && r[..|r|] == r;
    ReorderedGroups(places, group, ids);
    OutsideIds(places, group);
    OutsideIds(r, group);
    DistinctPermutation(Ids(places), Ids(r));
  }
}
