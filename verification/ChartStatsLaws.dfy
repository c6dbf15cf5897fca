/** What the streamed statistics amount to, and the laws of their rows. */
module ChartStatsLaws {
  import opened Common
  import opened Sequences
  import opened ChartStatsRows
  import opened ChartStats

  // ---------- streaming is grouping ----------

  function ChartIds(records: seq<ChartRecord>): (ids: seq<int>)
    ensures |ids| == |records| && forall i :: 0 <= i < |ids| ==> ids[i] == records[i].chartId
  {
    Map((record: ChartRecord) => record.chartId, records)
  }

  /** The records of a chart are never interrupted by another one. */
  ghost predicate Contiguous(records: seq<ChartRecord>) {
    forall i, j, k :: 0 <= i < j < k < |records| && records[i].chartId == records[k].chartId ==>
      records[j].chartId == records[i].chartId
  }

  function Only(records: seq<ChartRecord>, chartId: int): seq<ChartRecord> {
    if records == [] then []
    else
      Only(records[..|records| - 1], chartId)
      + (if records[|records| - 1].chartId == chartId then [records[|records| - 1]] else [])
  }

  /** The records grouped by chart, charts in the order they first occur. */
  function GroupsBy(records: seq<ChartRecord>): (groups: seq<seq<ChartRecord>>)
    ensures |groups| == |FirstSeen(ChartIds(records))|
    ensures forall k :: 0 <= k < |groups| ==> groups[k] == Only(records, FirstSeen(ChartIds(records))[k])
  {
    var charts := FirstSeen(ChartIds(records));
    seq(|charts|, k requires 0 <= k < |charts| => Only(records, charts[k]))
  }

  lemma {:induction false} OnlyIs(records: seq<ChartRecord>, chartId: int)
    ensures forall i :: 0 <= i < |Only(records, chartId)| ==> Only(records, chartId)[i].chartId == chartId
    ensures (exists i :: 0 <= i < |records| && records[i].chartId == chartId) ==> Only(records, chartId) != []
  {
    if records != [] {
      OnlyIs(records[..|records| - 1], chartId);
    }
  }

  lemma {:induction false} OnlySnoc(records: seq<ChartRecord>, r: ChartRecord, chartId: int)
    ensures Only(records + [r], chartId) == Only(records, chartId) + (if r.chartId == chartId then [r] else [])
  {
  }

  lemma {:induction false} OpenIsLastChart(records: seq<ChartRecord>)
    requires records != []
    ensures var open := StreamOf(records).open;
      open != [] && open[0].chartId == records[|records| - 1].chartId
  {
  }

  /** Grouping one more record of the last group's chart. */
  lemma {:induction false} SameChartGroups(init: seq<ChartRecord>, last: ChartRecord)
    requires init != [] && GroupsBy(init) != []
    requires last.chartId == FirstSeen(ChartIds(init))[|GroupsBy(init)| - 1]
    ensures var groups := GroupsBy(init);
      GroupsBy(init + [last]) == groups[..|groups| - 1] + [groups[|groups| - 1] + [last]]
  {
    var charts, groups := FirstSeen(ChartIds(init)), GroupsBy(init);
    var n := |groups| - 1;
    FirstSeenIs(ChartIds(init));
    assert ChartIds(init + [last])[..|init|] == ChartIds(init);
    assert FirstSeen(ChartIds(init + [last])) == charts;
    var after := GroupsBy(init + [last]);
    assert |after| == n + 1;
    forall k | 0 <= k <= n ensures after[k] == if k < n then groups[k] else groups[n] + [last] {
      OnlySnoc(init, last, charts[k]);
      assert after[k] == Only(init + [last], charts[k]) && groups[k] == Only(init, charts[k]);
    }
  }

  lemma {:induction false} NewChartGroups(init: seq<ChartRecord>, last: ChartRecord)
    requires last.chartId !in ChartIds(init)
    ensures GroupsBy(init + [last]) == GroupsBy(init) + [[last]]
  {
    var charts, groups := FirstSeen(ChartIds(init)), GroupsBy(init);
    FirstSeenIs(ChartIds(init));
    assert ChartIds(init + [last])[..|init|] == ChartIds(init);
    assert FirstSeen(ChartIds(init + [last])) == charts + [last.chartId];
    NoneOfChart(init, last.chartId);
    forall k | 0 <= k <= |groups|
      ensures GroupsBy(init + [last])[k] == (groups + [[last]])[k]
    {
      OnlySnoc(init, last, if k < |groups| then charts[k] else last.chartId);
    }
  }

  lemma {:induction false} NoneOfChart(records: seq<ChartRecord>, chartId: int)
    requires chartId !in ChartIds(records)
    ensures Only(records, chartId) == []
  {
    if records != [] {
      var n := |records| - 1;
      assert ChartIds(records)[n] == records[n].chartId;
      assert ChartIds(records[..n]) == ChartIds(records)[..n];
      NoneOfChart(records[..n], chartId);
    }
  }

  lemma {:induction false} NewChartIsNew(init: seq<ChartRecord>, last: ChartRecord)
    requires init != [] && Contiguous(init + [last]) && init[|init| - 1].chartId != last.chartId
    ensures last.chartId !in ChartIds(init)
  {
    var all, n := init + [last], |init|;
    forall i | 0 <= i < n ensures ChartIds(init)[i] != last.chartId {
      assert all[i] == init[i] && all[n - 1] == init[n - 1] && all[n] == last;
    }
  }

  /** For records that come chart by chart, the groups that are closed one after another are the
      records grouped by chart. */
  lemma {:induction false} StreamIsGrouping(records: seq<ChartRecord>)
    requires Contiguous(records)
    ensures Flushed(StreamOf(records)).closed == GroupsBy(records)
  {
    if records != [] {
      var n := |records| - 1;
      var init, last := records[..n], records[n];
      assert records == init + [last];
      StreamIsGrouping(init);
      if init == [] {
        NewChartGroups(init, last);
      } else {
        OpenIsLastChart(init);
        var open, groups := StreamOf(init).open, GroupsBy(init);
        assert groups[|groups| - 1] == open;
        OnlyIs(init, FirstSeen(ChartIds(init))[|groups| - 1]);
        assert open[0].chartId == FirstSeen(ChartIds(init))[|groups| - 1];
        if open[0].chartId == last.chartId {
          SameChartGroups(init, last);
        } else {
          NewChartIsNew(init, last);
          NewChartGroups(init, last);
        }
      }
    }
  }

  /** The calculated rows are those of the grouped records: one for each chart, in the order the
      charts first occur, and band, in the order of the bands, that has at least one record. */
  lemma {:induction false} StreamedRowsAreGrouped(bands: seq<Band>, records: seq<ChartRecord>)
    requires Contiguous(records)
    ensures Rows(bands, Flushed(StreamOf(records)).closed) == Rows(bands, GroupsBy(records))
  {
    StreamIsGrouping(records);
  }

  // ---------- the counts of a row add up ----------

  predicate KnownClearLamp(r: ChartRecord) { 1 <= r.clearLampId <= 6 }

  predicate KnownComboLamp(r: ChartRecord) { 1 <= r.comboLampId <= 3 }

  function ClearSum(c: ClearCounts): nat { c.failed + c.clear + c.hard + c.brave + c.absolute + c.catastrophy }

  function ComboSum(c: ComboCounts): nat { c.none + c.fc + c.aj + c.ajc }

  function RankSum(c: RankCounts): nat { c.max + c.sssp + c.sss + c.ssp + c.ss + c.sp + c.s + c.aaal }

  function UnknownClearLamps(records: seq<ChartRecord>): nat {
    if records == [] then 0
    else
      UnknownClearLamps(records[..|records| - 1]) + (if KnownClearLamp(records[|records| - 1]) then 0 else 1)
  }

  function UnknownComboLamps(records: seq<ChartRecord>): nat {
    if records == [] then 0
    else
      UnknownComboLamps(records[..|records| - 1]) + (if KnownComboLamp(records[|records| - 1]) then 0 else 1)
  }

  lemma {:induction false} RankSumAfter(c: RankCounts, score: int)
    ensures RankSum(RankAfter(c, score)) == RankSum(c) + 1
  {
  }

  lemma {:induction false} ClearSumAfter(c: ClearCounts, clearLampId: int)
    ensures ClearSum(ClearAfter(c, clearLampId)) == ClearSum(c) + (if 1 <= clearLampId <= 6 then 1 else 0)
  {
  }

  lemma {:induction false} ComboSumAfter(c: ComboCounts, comboLampId: int, score: int)
    ensures ComboSum(ComboAfter(c, comboLampId, score)) == ComboSum(c) + (if 1 <= comboLampId <= 3 then 1 else 0)
  {
  }

  lemma {:induction false} OneMoreCounted(init: seq<ChartRecord>, last: ChartRecord)
    ensures RankSum(RankOf(init + [last])) == RankSum(RankOf(init)) + (if Cleared(last) then 1 else 0)
    ensures ClearSum(ClearOf(init + [last])) == ClearSum(ClearOf(init)) + (if KnownClearLamp(last) then 1 else 0)
    ensures ComboSum(ComboOf(init + [last])) == ComboSum(ComboOf(init)) + (if KnownComboLamp(last) then 1 else 0)
  {
    RankSnoc(init, last);
    RankSumAfter(RankOf(init), last.score);
    ClearSnoc(init, last);
    ClearSumAfter(ClearOf(init), last.clearLampId);
    ComboSnoc(init, last);
    ComboSumAfter(ComboOf(init), last.comboLampId, last.score);
  }

  lemma {:induction false} LastCounted(records: seq<ChartRecord>)
    requires records != []
    ensures var init, last := records[..|records| - 1], records[|records| - 1];
      && RankSum(RankOf(records)) == RankSum(RankOf(init)) + (if Cleared(last) then 1 else 0)
      && ClearSum(ClearOf(records)) == ClearSum(ClearOf(init)) + (if KnownClearLamp(last) then 1 else 0)
      && ComboSum(ComboOf(records)) == ComboSum(ComboOf(init)) + (if KnownComboLamp(last) then 1 else 0)
  {
    assert records == records[..|records| - 1] + [records[|records| - 1]];
    OneMoreCounted(records[..|records| - 1], records[|records| - 1]);
  }

  lemma {:induction false} RanksAddUp(records: seq<ChartRecord>)
    ensures RankSum(RankOf(records)) + Count(records, Failed) == |records|
  {
    if records != [] {
      RanksAddUp(records[..|records| - 1]);
      LastCounted(records);
    }
  }

  lemma {:induction false} ClearsAddUp(records: seq<ChartRecord>)
    ensures ClearSum(ClearOf(records)) + UnknownClearLamps(records) == |records|
  {
    if records != [] {
      ClearsAddUp(records[..|records| - 1]);
      LastCounted(records);
    }
  }

  lemma {:induction false} CombosAddUp(records: seq<ChartRecord>)
    ensures ComboSum(ComboOf(records)) + UnknownComboLamps(records) == |records|
  {
    if records != [] {
      CombosAddUp(records[..|records| - 1]);
      LastCounted(records);
    }
  }

  /** In every row the ranks cover the players who cleared, and the clear and combo counts all
      players but those with a lamp the statistics do not know. */
  lemma {:induction false} RowAddsUp(chartId: int, bandId: int, records: seq<ChartRecord>)
    ensures var row := RowOf(chartId, bandId, records);
      && RankSum(row.rank) == row.playerCount - row.clear.failed
      && ClearSum(row.clear) == row.playerCount - UnknownClearLamps(records)
      && ComboSum(row.combo) == row.playerCount - UnknownComboLamps(records)
  {
    RanksAddUp(records);
    ClearsAddUp(records);
    CombosAddUp(records);
  }

  // ---------- bands that split a band ----------

  function Hits(parts: seq<Band>, rating: real): nat {
    if parts == [] then 0
    else Hits(parts[..|parts| - 1], rating) + (if parts[|parts| - 1].Contains(rating) then 1 else 0)
  }

  /** Every rating of the whole is in exactly one part, and no other rating is in any. */
  ghost predicate Splits(parts: seq<Band>, whole: Band) {
    forall rating: real :: Hits(parts, rating) == if whole.Contains(rating) then 1 else 0
  }

  function SumOver(parts: seq<Band>, records: seq<ChartRecord>, kind: Kind): nat {
    if parts == [] then 0
    else
      SumOver(parts[..|parts| - 1], records, kind) + Count(Within(records, parts[|parts| - 1]), kind)
  }

  lemma {:induction false} CountWithinSnoc(records: seq<ChartRecord>, r: ChartRecord, band: Band, kind: Kind)
    ensures Count(Within(records + [r], band), kind)
         == Count(Within(records, band), kind) + (if band.Contains(r.rating) && Is(r, kind) then 1 else 0)
  {
    WithinSnoc(records, r, band);
    CountSnoc(Within(records, band), r, kind);
    if !band.Contains(r.rating) {
      assert Within(records + [r], band) == Within(records, band);
    }
  }

  lemma {:induction false} SumOverSnoc(parts: seq<Band>, records: seq<ChartRecord>, r: ChartRecord, kind: Kind)
    ensures SumOver(parts, records + [r], kind)
         == SumOver(parts, records, kind) + (if Is(r, kind) then Hits(parts, r.rating) else 0)
  {
    if parts != [] {
      SumOverSnoc(parts[..|parts| - 1], records, r, kind);
      CountWithinSnoc(records, r, parts[|parts| - 1], kind);
    }
  }

  lemma {:induction false} SumOverNothing(parts: seq<Band>, kind: Kind)
    ensures SumOver(parts, [], kind) == 0
  {
    if parts != [] {
      SumOverNothing(parts[..|parts| - 1], kind);
    }
  }

  /** If bands split a larger one, each of its counts is the sum of theirs. */
  lemma {:induction false} CountsOfPartsAddUp(parts: seq<Band>, whole: Band, records: seq<ChartRecord>, kind: Kind)
    requires Splits(parts, whole)
    ensures Count(Within(records, whole), kind) == SumOver(parts, records, kind)
  {
    if records == [] {
      SumOverNothing(parts, kind);
    } else {
      var init, last := records[..|records| - 1], records[|records| - 1];
      assert records == init + [last];
      CountsOfPartsAddUp(parts, whole, init, kind);
      SumOverSnoc(parts, init, last, kind);
      CountWithinSnoc(init, last, whole, kind);
      assert Hits(parts, last.rating) == if whole.Contains(last.rating) then 1 else 0;
    }
  }

  lemma {:induction false} PlayersAreCounted(records: seq<ChartRecord>)
    ensures Count(records, Players) == |records|
  {
    if records != [] {
      PlayersAreCounted(records[..|records| - 1]);
    }
  }

  /** Two bands that meet split the band from the start of one to the end of the other: a rating
      at the border is counted once. */
  lemma {:induction false} MeetingBandsSplit(low: Band, high: Band, border: real, id: int)
    requires low.max == Some(border) && high.min == Some(border)
    requires low.min.Some? ==> low.min.value <= border
    requires high.max.Some? ==> border <= high.max.value
    ensures Splits([low, high], Band(id, low.min, high.max))
  {
    forall rating: real
      ensures Hits([low, high], rating) == if Band(id, low.min, high.max).Contains(rating) then 1 else 0
    {
      assert [low, high][..1] == [low] && [low][..0] == [];
      assert Hits([low], rating) == if low.Contains(rating) then 1 else 0;
    }
  }

  // ---------- the order of records does not matter ----------

  ghost predicate Ordered(s: seq<int>) {
    forall i, j :: 0 <= i < j < |s| ==> s[i] <= s[j]
  }

  lemma {:induction false} InsertKeeps(sorted: seq<int>, x: int)
    ensures multiset(Insert(sorted, x)) == multiset(sorted) + multiset{x}
  {
    if sorted != [] && sorted[|sorted| - 1] > x {
      var n := |sorted| - 1;
      assert sorted == sorted[..n] + [sorted[n]];
      InsertKeeps(sorted[..n], x);
    }
  }

  lemma {:induction false} OrderedSnoc(s: seq<int>, x: int)
    requires Ordered(s) && forall i :: 0 <= i < |s| ==> s[i] <= x
    ensures Ordered(s + [x])
  {
  }

  lemma {:induction false} InsertIs(sorted: seq<int>, x: int)
    requires Ordered(sorted)
    ensures Ordered(Insert(sorted, x))
  {
    if sorted != [] && sorted[|sorted| - 1] > x {
      var n := |sorted| - 1;
      InsertIs(sorted[..n], x);
      InsertKeeps(sorted[..n], x);
      var inner := Insert(sorted[..n], x);
      forall i | 0 <= i < |inner| ensures inner[i] <= sorted[n] {
        assert inner[i] in multiset(inner);
        assert inner[i] in sorted[..n] || inner[i] == x;
      }
      OrderedSnoc(inner, sorted[n]);
    } else {
      forall i | 0 <= i < |sorted| ensures sorted[i] <= x {
        assert sorted[i] <= sorted[|sorted| - 1];
      }
      OrderedSnoc(sorted, x);
    }
  }

  lemma {:induction false} SortedIs(scores: seq<int>)
    ensures Ordered(Sorted(scores)) && multiset(Sorted(scores)) == multiset(scores)
  {
    if scores != [] {
      var n := |scores| - 1;
      assert scores == scores[..n] + [scores[n]];
      SortedIs(scores[..n]);
      InsertIs(Sorted(scores[..n]), scores[n]);
      InsertKeeps(Sorted(scores[..n]), scores[n]);
    }
  }

  lemma {:induction false} OrderedIsUnique(a: seq<int>, b: seq<int>)
    requires Ordered(a) && Ordered(b) && multiset(a) == multiset(b) && |a| == |b|
    ensures a == b
    decreases |a|
  {
    if a != [] {
      var n := |a| - 1;
      LastIsGreatest(a, b);
      LastIsGreatest(b, a);
      WithoutLast(a);
      WithoutLast(b);
      OrderedIsUnique(a[..n], b[..n]);
      assert a == a[..n] + [a[n]] && b == b[..n] + [b[n]];
    }
  }

  lemma {:induction false} LastIsGreatest(a: seq<int>, b: seq<int>)
    requires Ordered(a) && a != [] && |a| == |b| && multiset(a) == multiset(b)
    ensures b[|b| - 1] <= a[|a| - 1]
  {
    assert b[|b| - 1] in multiset(b);
    var i :| 0 <= i < |a| && a[i] == b[|b| - 1];
  }

  lemma {:induction false} SortedIsUnique(scores: seq<int>, other: seq<int>)
    requires multiset(scores) == multiset(other)
    ensures |scores| == |other| && Sorted(scores) == Sorted(other)
  {
    assert |multiset(scores)| == |multiset(other)|;
    SortedIs(scores);
    SortedIs(other);
    OrderedIsUnique(Sorted(scores), Sorted(other));
  }

  /** At least half of the list is at most, and at least half at least, as high as its middle. */
  lemma {:induction false} HalvesAroundMiddle(s: seq<int>, i: nat)
    requires i < |s| && Ordered(s)
    ensures i <= (|s| - 1) / 2 ==> s[i] as real <= Middle(s)
    ensures |s| / 2 <= i ==> Middle(s) <= s[i] as real
  {
  }

  /** The median is in the middle of the scores, whatever their order. */
  lemma {:induction false} MedianIsMiddle(scores: seq<int>, other: seq<int>, i: nat)
    requires i < |scores| && multiset(scores) == multiset(other)
    ensures Ordered(Sorted(scores)) && multiset(Sorted(scores)) == multiset(scores)
    ensures i <= (|scores| - 1) / 2 ==> Sorted(scores)[i] as real <= Median(scores)
    ensures |scores| / 2 <= i ==> Median(scores) <= Sorted(scores)[i] as real
    ensures |other| == |scores| && Median(other) == Median(scores)
  {
    SortedIs(scores);
    SortedIsUnique(scores, other);
    HalvesAroundMiddle(Sorted(scores), i);
  }

  lemma {:induction false} CountSplit(a: seq<ChartRecord>, b: seq<ChartRecord>, kind: Kind)
    ensures Count(a + b, kind) == Count(a, kind) + Count(b, kind)
    decreases |b|
  {
    if b == [] {
      assert a + b == a;
    } else {
      var n := |b| - 1;
      assert (a + b)[..|a + b| - 1] == a + b[..n];
      CountSplit(a, b[..n], kind);
    }
  }

  lemma {:induction false} ScoresSplit(a: seq<ChartRecord>, b: seq<ChartRecord>)
    ensures ClearedScores(a + b) == ClearedScores(a) + ClearedScores(b)
    decreases |b|
  {
    if b == [] {
      assert a + b == a;
    } else {
      var n := |b| - 1;
      assert (a + b)[..|a + b| - 1] == a + b[..n];
      ScoresSplit(a, b[..n]);
    }
  }

  /** Taking a record out. */
  lemma {:induction false} Without(records: seq<ChartRecord>, k: nat) returns (others: seq<ChartRecord>)
    requires k < |records|
    ensures |others| == |records| - 1 && multiset(others) == multiset(records) - multiset{records[k]}
    ensures forall kind :: Count(records, kind) == Count(others, kind) + (if Is(records[k], kind) then 1 else 0)
    ensures multiset(ClearedScores(records))
         == multiset(ClearedScores(others)) + (if Cleared(records[k]) then multiset{records[k].score} else multiset{})
  {
    var before, x, after := records[..k], records[k], records[k + 1..];
    others := before + after;
    assert records == before + [x] + after;
    forall kind ensures Count(records, kind) == Count(others, kind) + (if Is(x, kind) then 1 else 0) {
      CountSplit(before + [x], after, kind);
      CountSnoc(before, x, kind);
      CountSplit(before, after, kind);
    }
    ScoresSplit(before + [x], after);
    ScoresSnoc(before, x);
    ScoresSplit(before, after);
  }

  lemma {:induction false} CountsOfPermutation(a: seq<ChartRecord>, b: seq<ChartRecord>)
    requires multiset(a) == multiset(b)
    ensures forall kind :: Count(a, kind) == Count(b, kind)
    ensures multiset(ClearedScores(a)) == multiset(ClearedScores(b))
    decreases |a|
  {
    if a == [] {
      assert |multiset(b)| == 0;
    } else {
      assert a[0] in multiset(b);
      var k :| 0 <= k < |b| && b[k] == a[0];
      var rest := Without(a, 0);
      var others := Without(b, k);
      CountsOfPermutation(rest, others);
    }
  }

  lemma {:induction false} TotalSplit(a: seq<int>, b: seq<int>)
    ensures Total(a + b) == Total(a) + Total(b)
    decreases |b|
  {
    if b == [] {
      assert a + b == a;
    } else {
      assert (a + b)[..|a + b| - 1] == a + b[..|b| - 1];
      TotalSplit(a, b[..|b| - 1]);
    }
  }

  lemma {:induction false} TotalOfPermutation(a: seq<int>, b: seq<int>)
    requires multiset(a) == multiset(b)
    ensures Total(a) == Total(b)
    decreases |a|
  {
    if a == [] {
      assert |multiset(b)| == 0;
    } else {
      var n := |a| - 1;
      assert a == a[..n] + [a[n]];
      assert a[n] in multiset(b);
      var k :| 0 <= k < |b| && b[k] == a[n];
      var before, after := b[..k], b[k + 1..];
      assert b == before + [a[n]] + after;
      assert multiset(before + after) == multiset(b) - multiset{a[n]} == multiset(a[..n]);
      TotalOfPermutation(a[..n], before + after);
      TotalSplit(before + [a[n]], after);
      TotalSnoc(before, a[n]);
      TotalSplit(before, after);
    }
  }

  /** A row depends on which records it covers, not on their order. */
  lemma {:induction false} RowOfPermutation(chartId: int, bandId: int, a: seq<ChartRecord>, b: seq<ChartRecord>)
    requires multiset(a) == multiset(b)
    ensures RowOf(chartId, bandId, a) == RowOf(chartId, bandId, b)
  {
    CountsOfPermutation(a, b);
    var s, t := ClearedScores(a), ClearedScores(b);
    assert |multiset(a)| == |multiset(b)| && |multiset(s)| == |multiset(t)|;
    if s != [] {
      MedianIsMiddle(s, t, 0);
      TotalOfPermutation(s, t);
    }
  }
}
