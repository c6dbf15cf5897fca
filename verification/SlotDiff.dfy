/** The difference between a player's stored slots and the slots they should have. */
module SlotDiff {
  import opened Common
  import opened Sequences
  import opened RatingSlots

  datatype Record = Record(chartId: int, score: nat, comboLampId: int, slotName: string, slotOrder: Option<int>)

  datatype Assignment = Assignment(chartId: int, slotId: int, position: int)

  datatype SlotGroup = SlotGroup(name: string, records: seq<RatingRecord>)

  /** A chart belongs into a slot at a position. */
  datatype Target = Target(chartId: int, name: string, position: int)

  datatype Diff = Diff(clears: seq<int>, assignments: seq<Assignment>)

  type SlotIds = map<string, int>

  function IdOf(slotIds: SlotIds, name: string): int {
    if name in slotIds then slotIds[name] else 0
  }

  // ---------- the specification ----------

  function TargetsOf(group: SlotGroup): seq<Target> {
    seq(|group.records|, i requires 0 <= i < |group.records| =>
      Target(group.records[i].chartId, group.name, i + 1))
  }

  function Targets(groups: seq<SlotGroup>): seq<Target> {
    if groups == [] then []
    else Targets(groups[..|groups| - 1]) + TargetsOf(groups[|groups| - 1])
  }

  function ChartsOf(targets: seq<Target>): set<int> { set t | t in targets :: t.chartId }

  /** The records that are in a slot, or have a leftover order, by chart. */
  function Slotted(records: seq<Record>): map<int, Record> {
    if records == [] then map[]
    else
      var last := records[|records| - 1];
      var before := Slotted(records[..|records| - 1]);
      if last.slotName != "none" || last.slotOrder.Some? then before[last.chartId := last] else before
  }

  predicate IsAt(current: map<int, Record>, target: Target) {
    && target.chartId in current
    && current[target.chartId].slotName == target.name
    && current[target.chartId].slotOrder == Some(target.position)
  }

  function AssignmentsFor(slotIds: SlotIds, current: map<int, Record>, targets: seq<Target>): seq<Assignment> {
    if targets == [] then []
    else
      var last := targets[|targets| - 1];
      AssignmentsFor(slotIds, current, targets[..|targets| - 1])
      + (if IsAt(current, last) then []
         else [Assignment(last.chartId, IdOf(slotIds, last.name), last.position)])
  }

  function ClearsFor(records: seq<Record>, current: map<int, Record>, placed: set<int>): seq<int> {
    if records == [] then []
    else
      var last := records[|records| - 1];
      ClearsFor(records[..|records| - 1], current, placed)
      + (if last.chartId in current && last.chartId !in placed then [last.chartId] else [])
  }

  function DiffOf(slotIds: SlotIds, records: seq<Record>, groups: seq<SlotGroup>): Diff {
    var current := Slotted(records);
    Diff(ClearsFor(records, current, ChartsOf(Targets(groups))),
         AssignmentsFor(slotIds, current, Targets(groups)))
  }

  // ---------- the loops ----------

  method CurrentSlots(records: seq<Record>) returns (current: map<int, Record>)
    ensures current == Slotted(records)
  {
    current := map[];
    for i := 0 to |records|
      invariant current == Slotted(records[..i])
    {
      assert records[..i + 1][..i] == records[..i];
      if records[i].slotName != "none" || records[i].slotOrder.Some? {
        current := current[records[i].chartId := records[i]];
      }
    }
    assert records[..|records|] == records;
  }

  lemma {:induction false} OneMoreTarget(
      slotIds: SlotIds, current: map<int, Record>, targets: seq<Target>, target: Target)
    ensures ChartsOf(targets + [target]) == ChartsOf(targets) + {target.chartId}
    ensures AssignmentsFor(slotIds, current, targets + [target])
         == AssignmentsFor(slotIds, current, targets)
            + (if IsAt(current, target) then []
               else [Assignment(target.chartId, IdOf(slotIds, target.name), target.position)])
  {
  }

  method AssignOne(
    slotIds: SlotIds, current: map<int, Record>, name: string, chartId: int, position: int,
    assignments0: seq<Assignment>, ghost done: seq<Target>)
    returns (assignments: seq<Assignment>)
    requires assignments0 == AssignmentsFor(slotIds, current, done)
    ensures assignments == AssignmentsFor(slotIds, current, done + [Target(chartId, name, position)])
  {
    OneMoreTarget(slotIds, current, done, Target(chartId, name, position));
    if chartId in current && current[chartId].slotName == name && current[chartId].slotOrder == Some(position) {
      return assignments0;
    }
    return assignments0 + [Assignment(chartId, IdOf(slotIds, name), position)];
  }

  method AssignGroup(
    slotIds: SlotIds, current: map<int, Record>, group: SlotGroup, placed0: set<int>,
    assignments0: seq<Assignment>, ghost done: seq<Target>)
    returns (placed: set<int>, assignments: seq<Assignment>)
    requires placed0 == ChartsOf(done) && assignments0 == AssignmentsFor(slotIds, current, done)
    ensures placed == ChartsOf(done + TargetsOf(group))
    ensures assignments == AssignmentsFor(slotIds, current, done + TargetsOf(group))
  {
    placed, assignments := placed0, assignments0;
    ghost var targets := TargetsOf(group);
    assert done + targets[..0] == done;
    assert targets[..|group.records|] == targets;
    for i := 0 to |group.records|
      invariant placed == ChartsOf(done + targets[..i])
      invariant assignments == AssignmentsFor(slotIds, current, done + targets[..i])
    {
      var record := group.records[i];
      assert done + targets[..i + 1] == done + targets[..i] + [targets[i]];
      OneMoreTarget(slotIds, current, done + targets[..i], targets[i]);
      placed := placed + {record.chartId};
      assignments :=
        AssignOne(slotIds, current, group.name, record.chartId, i + 1, assignments, done + targets[..i]);
    }
  }

  method DiffSlots(slotIds: SlotIds, records: seq<Record>, groups: seq<SlotGroup>)
    returns (clears: seq<int>, assignments: seq<Assignment>)
    ensures Diff(clears, assignments) == DiffOf(slotIds, records, groups)
  {
    var current := CurrentSlots(records);
    var placed: set<int> := {};
    assignments := [];
    for g := 0 to |groups|
      invariant placed == ChartsOf(Targets(groups[..g]))
      invariant assignments == AssignmentsFor(slotIds, current, Targets(groups[..g]))
    {
      assert groups[..g + 1][..g] == groups[..g];
      placed, assignments :=
        AssignGroup(slotIds, current, groups[g], placed, assignments, Targets(groups[..g]));
    }
    assert groups[..|groups|] == groups;
    clears := [];
    for i := 0 to |records|
      invariant clears == ClearsFor(records[..i], current, placed)
    {
      assert records[..i + 1][..i] == records[..i];
      if records[i].chartId !in current {
        continue;
      }
      if records[i].chartId !in placed {
        clears := clears + [records[i].chartId];
      }
    }
    assert records[..|records|] == records;
  }

  // ---------- storing a difference ----------

  /** A row of the slots table that carries the ID. */
  predicate IsSlot(slotIds: SlotIds, name: string, id: int) { name in slotIds && slotIds[name] == id }

  ghost function NameOf(slotIds: SlotIds, id: int): string {
    if exists name :: IsSlot(slotIds, name, id)
    then (var name :| IsSlot(slotIds, name, id); name)
    else "none"
  }

  /** The slots table has one row per ID. */
  ghost predicate OneSlotPerId(slotIds: SlotIds) {
    forall a, b :: a in slotIds && b in slotIds && slotIds[a] == slotIds[b] ==> a == b
  }

  function AssignmentOf(assignments: seq<Assignment>, chartId: int): Option<Assignment> {
    if assignments == [] then None
    else if assignments[0].chartId == chartId then Some(assignments[0])
    else AssignmentOf(assignments[1..], chartId)
  }

  /** First the cleared charts leave their slot, then the assigned ones enter theirs. */
  ghost function Stored(slotIds: SlotIds, record: Record, diff: Diff): Record {
    var cleared := if record.chartId in diff.clears then record.(slotName := "none", slotOrder := None) else record;
    match AssignmentOf(diff.assignments, record.chartId)
    case None => cleared
    case Some(a) => cleared.(slotName := NameOf(slotIds, a.slotId), slotOrder := Some(a.position))
  }

  ghost function Applied(slotIds: SlotIds, records: seq<Record>, diff: Diff): (after: seq<Record>)
    ensures |after| == |records|
    ensures forall i :: 0 <= i < |records| ==> after[i] == Stored(slotIds, records[i], diff)
  {
    seq(|records|, i requires 0 <= i < |records| => Stored(slotIds, records[i], diff))
  }

  // ---------- the difference is right and least ----------

  ghost predicate DistinctCharts(records: seq<Record>) {
    forall i, j :: 0 <= i < j < |records| ==> records[i].chartId != records[j].chartId
  }

  ghost predicate DistinctTargets(targets: seq<Target>) {
    forall i, j :: 0 <= i < j < |targets| ==> targets[i].chartId != targets[j].chartId
  }

  /** The record is in exactly the slot and position it should have, or in none at all. */
  ghost predicate InPlace(record: Record, targets: seq<Target>) {
    if record.chartId in ChartsOf(targets)
    then record.slotOrder.Some? && Target(record.chartId, record.slotName, record.slotOrder.value) in targets
    else record.slotName == "none" && record.slotOrder.None?
  }

  ghost predicate Known(slotIds: SlotIds, targets: seq<Target>) {
    forall t :: t in targets ==> t.name in slotIds
  }

  lemma {:induction false} SlottedIs(records: seq<Record>, i: nat)
    requires DistinctCharts(records) && i < |records|
    ensures records[i].chartId in Slotted(records) <==> records[i].slotName != "none" || records[i].slotOrder.Some?
    ensures records[i].chartId in Slotted(records) ==> Slotted(records)[records[i].chartId] == records[i]
    decreases |records|
  {
    var n := |records| - 1;
    if i < n {
      SlottedIs(records[..n], i);
    } else {
      SlottedKeys(records[..n]);
    }
  }

  lemma {:induction false} SlottedKeys(records: seq<Record>)
    ensures forall c :: c in Slotted(records) ==> exists i :: 0 <= i < |records| && records[i].chartId == c
  {
    if records != [] {
      var n := |records| - 1;
      SlottedKeys(records[..n]);
      forall c | c in Slotted(records) ensures exists i :: 0 <= i < |records| && records[i].chartId == c {
        if c != records[n].chartId {
          assert c in Slotted(records[..n]);
          var i :| 0 <= i < n && records[..n][i].chartId == c;
          assert records[i].chartId == c;
        }
      }
    }
  }

  lemma {:induction false} ClearsAre(records: seq<Record>, current: map<int, Record>, placed: set<int>, chartId: int)
    ensures chartId in ClearsFor(records, current, placed) <==>
      chartId in current && chartId !in placed && exists i :: 0 <= i < |records| && records[i].chartId == chartId
  {
    if records != [] {
      var n := |records| - 1;
      ClearsAre(records[..n], current, placed, chartId);
      assert forall i :: 0 <= i < n ==> records[..n][i] == records[i];
    }
  }

  lemma {:induction false} AssignmentOfConcat(a: seq<Assignment>, b: seq<Assignment>, chartId: int)
    ensures AssignmentOf(a + b, chartId)
         == if AssignmentOf(a, chartId).Some? then AssignmentOf(a, chartId) else AssignmentOf(b, chartId)
    decreases |a|
  {
    if a == [] {
      assert a + b == b;
    } else {
      assert (a + b)[1..] == a[1..] + b;
      AssignmentOfConcat(a[1..], b, chartId);
    }
  }

  /** A chart is assigned exactly if it has a target where it is not yet. */
  lemma {:induction false} AssignmentsAre(
      slotIds: SlotIds, current: map<int, Record>, targets: seq<Target>, chartId: int)
    requires DistinctTargets(targets)
    ensures var found := AssignmentOf(AssignmentsFor(slotIds, current, targets), chartId);
      && (chartId !in ChartsOf(targets) ==> found == None)
      && (forall t :: t in targets && t.chartId == chartId ==>
            found == if IsAt(current, t) then None else Some(Assignment(chartId, IdOf(slotIds, t.name), t.position)))
  {
    if targets != [] {
      var n := |targets| - 1;
      var init, last := targets[..n], targets[n];
      assert targets == init + [last];
      AssignmentsAre(slotIds, current, init, chartId);
      var added := if IsAt(current, last) then []
                   else [Assignment(last.chartId, IdOf(slotIds, last.name), last.position)];
      AssignmentOfConcat(AssignmentsFor(slotIds, current, init), added, chartId);
      if last.chartId == chartId {
        assert forall t :: t in init ==> t.chartId != chartId;
      } else if chartId in ChartsOf(targets) {
        assert chartId in ChartsOf(init);
      }
    }
  }

  lemma {:induction false} NameOfSlot(slotIds: SlotIds, name: string)
    requires OneSlotPerId(slotIds) && name in slotIds
    ensures NameOf(slotIds, slotIds[name]) == name
  {
    assert IsSlot(slotIds, name, slotIds[name]);
  }

  lemma {:induction false} TargetOfChart(targets: seq<Target>, chartId: int) returns (t: Target)
    requires chartId in ChartsOf(targets)
    ensures t in targets && t.chartId == chartId
  {
    t :| t in targets && t.chartId == chartId;
  }

  /** Storing the difference puts every record exactly where it should be, and changes nothing
      but slots. */
  lemma {:induction false} DiffReachesTargets(slotIds: SlotIds, records: seq<Record>, groups: seq<SlotGroup>)
    requires OneSlotPerId(slotIds) && DistinctCharts(records)
    requires DistinctTargets(Targets(groups)) && Known(slotIds, Targets(groups))
    ensures var after := Applied(slotIds, records, DiffOf(slotIds, records, groups));
      forall i :: 0 <= i < |records| ==>
        && InPlace(after[i], Targets(groups))
        && after[i].(slotName := records[i].slotName, slotOrder := records[i].slotOrder) == records[i]
  {
    var diff, targets := DiffOf(slotIds, records, groups), Targets(groups);
    var current := Slotted(records);
    forall i | 0 <= i < |records| ensures InPlace(Stored(slotIds, records[i], diff), targets) {
      var chartId := records[i].chartId;
      SlottedIs(records, i);
      AssignmentsAre(slotIds, current, targets, chartId);
      ClearsAre(records, current, ChartsOf(targets), chartId);
      if chartId in ChartsOf(targets) {
        var t := TargetOfChart(targets, chartId);
        NameOfSlot(slotIds, t.name);
      }
    }
  }

  /** A second difference is empty. */
  lemma {:induction false} NothingLeftToDo(slotIds: SlotIds, records: seq<Record>, groups: seq<SlotGroup>)
    requires DistinctCharts(records) && DistinctTargets(Targets(groups))
    requires forall i :: 0 <= i < |records| ==> InPlace(records[i], Targets(groups))
    requires forall t :: t in Targets(groups) ==> exists i :: 0 <= i < |records| && records[i].chartId == t.chartId
    ensures DiffOf(slotIds, records, groups) == Diff([], [])
  {
    var current, targets := Slotted(records), Targets(groups);
    var clears := ClearsFor(records, current, ChartsOf(targets));
    if clears != [] {
      ClearsAre(records, current, ChartsOf(targets), clears[0]);
      var i :| 0 <= i < |records| && records[i].chartId == clears[0];
      SlottedIs(records, i);
      assert false;
    }
    forall t | t in targets ensures IsAt(current, t) {
      var i :| 0 <= i < |records| && records[i].chartId == t.chartId;
      SlottedIs(records, i);
      SameTarget(targets, t, Target(records[i].chartId, records[i].slotName, records[i].slotOrder.value));
    }
    NoAssignments(slotIds, current, targets);
  }

  lemma {:induction false} SameTarget(targets: seq<Target>, a: Target, b: Target)
    requires DistinctTargets(targets) && a in targets && b in targets && a.chartId == b.chartId
    ensures a == b
  {
  }

  lemma {:induction false} NoAssignments(slotIds: SlotIds, current: map<int, Record>, targets: seq<Target>)
    requires forall t :: t in targets ==> IsAt(current, t)
    ensures AssignmentsFor(slotIds, current, targets) == []
  {
    if targets != [] {
      NoAssignments(slotIds, current, targets[..|targets| - 1]);
    }
  }

  ghost predicate Mentions(diff: Diff, chartId: int) {
    chartId in diff.clears || exists a :: a in diff.assignments && a.chartId == chartId
  }

  lemma {:induction false} NotAssigned(assignments: seq<Assignment>, chartId: int)
    ensures AssignmentOf(assignments, chartId).Some? <==> exists a :: a in assignments && a.chartId == chartId
  {
    if assignments != [] {
      NotAssigned(assignments[1..], chartId);
      assert assignments == [assignments[0]] + assignments[1..];
    }
  }

  /** The difference is least: a record it mentions is not where it should be, so every other
      difference that puts all records in place mentions it too. */
  lemma {:induction false} DiffIsLeast(
      slotIds: SlotIds, records: seq<Record>, groups: seq<SlotGroup>, other: Diff, i: nat)
    requires DistinctCharts(records) && DistinctTargets(Targets(groups)) && i < |records|
    requires forall k :: 0 <= k < |records| ==> InPlace(Stored(slotIds, records[k], other), Targets(groups))
    requires Mentions(DiffOf(slotIds, records, groups), records[i].chartId)
    ensures !InPlace(records[i], Targets(groups)) && Mentions(other, records[i].chartId)
  {
    var targets, current := Targets(groups), Slotted(records);
    var chartId := records[i].chartId;
    SlottedIs(records, i);
    ClearsAre(records, current, ChartsOf(targets), chartId);
    AssignmentsAre(slotIds, current, targets, chartId);
    NotAssigned(AssignmentsFor(slotIds, current, targets), chartId);
    NotAssigned(other.assignments, chartId);
    if InPlace(records[i], targets) && chartId in ChartsOf(targets) {
      assert IsAt(current, Target(chartId, records[i].slotName, records[i].slotOrder.value));
      assert false;
    }
  }

  /** No chart is cleared or assigned twice, and none is both cleared and assigned. */
  lemma {:induction false} DiffHasNoRepeats(slotIds: SlotIds, records: seq<Record>, groups: seq<SlotGroup>)
    requires DistinctCharts(records) && DistinctTargets(Targets(groups))
    ensures var diff := DiffOf(slotIds, records, groups);
      && Distinct(diff.clears)
      && (forall i, j :: 0 <= i < j < |diff.assignments| ==>
            diff.assignments[i].chartId != diff.assignments[j].chartId)
      && (forall a :: a in diff.assignments ==> a.chartId !in diff.clears)
  {
    var diff, targets, current := DiffOf(slotIds, records, groups), Targets(groups), Slotted(records);
    ClearedOnce(records, current, ChartsOf(targets));
    AssignedOnce(slotIds, current, targets);
    assert diff.clears == ClearsFor(records, current, ChartsOf(targets));
    forall a | a in diff.assignments ensures a.chartId !in diff.clears {
      NotAssigned(diff.assignments, a.chartId);
      AssignmentsAre(slotIds, current, targets, a.chartId);
      ClearsAre(records, current, ChartsOf(targets), a.chartId);
    }
  }

  lemma {:induction false} ClearedOnce(records: seq<Record>, current: map<int, Record>, placed: set<int>)
    requires DistinctCharts(records)
    ensures Distinct(ClearsFor(records, current, placed))
  {
    if records != [] {
      var n := |records| - 1;
      ClearedOnce(records[..n], current, placed);
      ClearsAre(records[..n], current, placed, records[n].chartId);
    }
  }

  lemma {:induction false} AssignedOnce(slotIds: SlotIds, current: map<int, Record>, targets: seq<Target>)
    requires DistinctTargets(targets)
    ensures var assignments := AssignmentsFor(slotIds, current, targets);
      forall i, j :: 0 <= i < j < |assignments| ==> assignments[i].chartId != assignments[j].chartId
  {
    if targets != [] {
      var n := |targets| - 1;
      AssignedOnce(slotIds, current, targets[..n]);
      NotAssigned(AssignmentsFor(slotIds, current, targets[..n]), targets[n].chartId);
      AssignmentsAre(slotIds, current, targets[..n], targets[n].chartId);
    }
  }
}
