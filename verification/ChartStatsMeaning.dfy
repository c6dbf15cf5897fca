/** What the numbers of a returned row are: sizes of sets of records, the sum of their scores, and
    the middle of them. */
module ChartStatsMeaning {
  import opened Common
  import opened Sequences
  import opened ChartStatsRows
  import opened ChartStats
  import opened ChartStatsLaws
  import opened ChartStatsBands

  ghost predicate InBand(band: Band, rating: real) {
    (band.min.None? || band.min.value <= rating) && (band.max.None? || rating < band.max.value)
  }

  /** The positions of a chart's records within a band of which something holds. */
  ghost function Positions(
    records: seq<ChartRecord>, chartId: int, band: Band, what: ChartRecord -> bool): set<int>
  {
    set i | 0 <= i < |records| && records[i].chartId == chartId && InBand(band, records[i].rating) && what(records[i])
  }

  ghost predicate Fits(r: ChartRecord, chartId: int, band: Band) {
    r.chartId == chartId && InBand(band, r.rating)
  }

  lemma {:induction false} GroupSnoc(records: seq<ChartRecord>, r: ChartRecord, chartId: int, band: Band)
    ensures Within(Only(records + [r], chartId), band)
         == Within(Only(records, chartId), band) + (if Fits(r, chartId, band) then [r] else [])
  {
    OnlySnoc(records, r, chartId);
    if r.chartId == chartId {
      WithinSnoc(Only(records, chartId), r, band);
    } else {
      assert Only(records + [r], chartId) == Only(records, chartId);
    }
  }

  lemma {:induction false} PositionsSnoc(
    records: seq<ChartRecord>, r: ChartRecord, chartId: int, band: Band, what: ChartRecord -> bool)
    ensures Positions(records + [r], chartId, band, what)
         == Positions(records, chartId, band, what)
            + (if Fits(r, chartId, band) && what(r) then {|records|} else {})
    ensures |records| !in Positions(records, chartId, band, what)
  {
    var all := records + [r];
    forall i | 0 <= i < |records| ensures all[i] == records[i] {}
    assert all[|records|] == r;
  }

  lemma {:induction false} CountIsSize(
    records: seq<ChartRecord>, chartId: int, band: Band, kind: Kind, what: ChartRecord -> bool)
    requires forall r :: what(r) <==> Is(r, kind)
    ensures Count(Within(Only(records, chartId), band), kind) == |Positions(records, chartId, band, what)|
  {
    if records == [] {
      assert Positions(records, chartId, band, what) == {};
    } else {
      var init, last := records[..|records| - 1], records[|records| - 1];
      assert records == init + [last];
      CountIsSize(init, chartId, band, kind, what);
      GroupSnoc(init, last, chartId, band);
      PositionsSnoc(init, last, chartId, band, what);
      if Fits(last, chartId, band) {
        CountSnoc(Within(Only(init, chartId), band), last, kind);
      } else {
        assert Within(Only(records, chartId), band) == Within(Only(init, chartId), band);
      }
    }
  }

  // ---------- the counters ----------

  /** The row of a chart and a band, which it names. */
  lemma {:induction false} RowOfBand(bands: seq<Band>, records: seq<ChartRecord>, k: nat) returns (b: nat)
    requires Contiguous(records) && DistinctIds(bands) && k < |Calculated(bands, records)|
    ensures b < |bands| && bands[b].id == Calculated(bands, records)[k].bandId
    ensures var row := Calculated(bands, records)[k];
      IsRowOf(row, row.chartId, bands[b], Only(records, row.chartId))
  {
    var charts := FirstSeen(ChartIds(records));
    CalculatedIs(bands, records);
    var c;
    c, b := RowIs(bands, records, charts, Calculated(bands, records)[k]);
  }

  /** How many records of the chart are in the band. */
  ghost function Size(records: seq<ChartRecord>, chartId: int, band: Band): nat {
    |Positions(records, chartId, band, (r: ChartRecord) => true)|
  }

  /** How many of them are not failed and have at least the one score, but not the other. */
  ghost function ClearedBetween(records: seq<ChartRecord>, chartId: int, band: Band, from: int, to: int): nat {
    |Positions(records, chartId, band, (r: ChartRecord) => r.clearLampId != 1 && from <= r.score < to)|
  }

  ghost function ClearedFrom(records: seq<ChartRecord>, chartId: int, band: Band, from: int): nat {
    |Positions(records, chartId, band, (r: ChartRecord) => r.clearLampId != 1 && from <= r.score)|
  }

  ghost function ClearedBelow(records: seq<ChartRecord>, chartId: int, band: Band, to: int): nat {
    |Positions(records, chartId, band, (r: ChartRecord) => r.clearLampId != 1 && r.score < to)|
  }

  ghost function WithClearLamp(records: seq<ChartRecord>, chartId: int, band: Band, lamp: int): nat {
    |Positions(records, chartId, band, (r: ChartRecord) => r.clearLampId == lamp)|
  }

  ghost function WithComboLamp(records: seq<ChartRecord>, chartId: int, band: Band, lamp: int): nat {
    |Positions(records, chartId, band, (r: ChartRecord) => r.comboLampId == lamp)|
  }

  /** How many have ALL JUSTICE with the given score, or with another one. */
  ghost function AllJusticeAt(records: seq<ChartRecord>, chartId: int, band: Band, score: int): nat {
    |Positions(records, chartId, band, (r: ChartRecord) => r.comboLampId == 3 && r.score == score)|
  }

  ghost function AllJusticeNotAt(records: seq<ChartRecord>, chartId: int, band: Band, score: int): nat {
    |Positions(records, chartId, band, (r: ChartRecord) => r.comboLampId == 3 && r.score != score)|
  }

  lemma {:induction false} BetweenIs(
    records: seq<ChartRecord>, chartId: int, band: Band, kind: Kind, from: int, to: int)
    requires forall r: ChartRecord :: Is(r, kind) <==> r.clearLampId != 1 && from <= r.score < to
    ensures Count(Within(Only(records, chartId), band), kind) == ClearedBetween(records, chartId, band, from, to)
  {
    CountIsSize(records, chartId, band, kind,
                (r: ChartRecord) => r.clearLampId != 1 && from <= r.score < to);
  }

  lemma {:induction false} UpperRanks(records: seq<ChartRecord>, chartId: int, band: Band)
    ensures var group := Within(Only(records, chartId), band);
      && Count(group, RankMax) == ClearedFrom(records, chartId, band, 1_010_000)
      && Count(group, RankSSSP) == ClearedBetween(records, chartId, band, 1_009_000, 1_010_000)
      && Count(group, RankSSS) == ClearedBetween(records, chartId, band, 1_007_500, 1_009_000)
      && Count(group, RankSSP) == ClearedBetween(records, chartId, band, 1_005_000, 1_007_500)
  {
    CountIsSize(records, chartId, band, RankMax,
                (r: ChartRecord) => r.clearLampId != 1 && 1_010_000 <= r.score);
    BetweenIs(records, chartId, band, RankSSSP, 1_009_000, 1_010_000);
    BetweenIs(records, chartId, band, RankSSS, 1_007_500, 1_009_000);
    BetweenIs(records, chartId, band, RankSSP, 1_005_000, 1_007_500);
  }

  lemma {:induction false} LowerRanks(records: seq<ChartRecord>, chartId: int, band: Band)
    ensures var group := Within(Only(records, chartId), band);
      && Count(group, RankSS) == ClearedBetween(records, chartId, band, 1_000_000, 1_005_000)
      && Count(group, RankSP) == ClearedBetween(records, chartId, band, 990_000, 1_000_000)
      && Count(group, RankS) == ClearedBetween(records, chartId, band, 975_000, 990_000)
      && Count(group, RankAAAL) == ClearedBelow(records, chartId, band, 975_000)
  {
    BetweenIs(records, chartId, band, RankSS, 1_000_000, 1_005_000);
    BetweenIs(records, chartId, band, RankSP, 990_000, 1_000_000);
    BetweenIs(records, chartId, band, RankS, 975_000, 990_000);
    CountIsSize(records, chartId, band, RankAAAL, (r: ChartRecord) => r.clearLampId != 1 && r.score < 975_000);
  }

  lemma {:induction false} ClearLampIs(records: seq<ChartRecord>, chartId: int, band: Band, kind: Kind, lamp: int)
    requires forall r: ChartRecord :: Is(r, kind) <==> r.clearLampId == lamp
    ensures Count(Within(Only(records, chartId), band), kind) == WithClearLamp(records, chartId, band, lamp)
  {
    CountIsSize(records, chartId, band, kind, (r: ChartRecord) => r.clearLampId == lamp);
  }

  lemma {:induction false} ClearLamps(records: seq<ChartRecord>, chartId: int, band: Band)
    ensures var group := Within(Only(records, chartId), band);
      && Count(group, Failed) == WithClearLamp(records, chartId, band, 1)
      && Count(group, Clear) == WithClearLamp(records, chartId, band, 2)
      && Count(group, Hard) == WithClearLamp(records, chartId, band, 3)
      && Count(group, Brave) == WithClearLamp(records, chartId, band, 4)
      && Count(group, Absolute) == WithClearLamp(records, chartId, band, 5)
      && Count(group, Catastrophy) == WithClearLamp(records, chartId, band, 6)
  {
    ClearLampIs(records, chartId, band, Failed, 1);
    ClearLampIs(records, chartId, band, Clear, 2);
    ClearLampIs(records, chartId, band, Hard, 3);
    ClearLampIs(records, chartId, band, Brave, 4);
    ClearLampIs(records, chartId, band, Absolute, 5);
    ClearLampIs(records, chartId, band, Catastrophy, 6);
  }

  lemma {:induction false} ComboLamps(records: seq<ChartRecord>, chartId: int, band: Band)
    ensures var group := Within(Only(records, chartId), band);
      && Count(group, NoCombo) == WithComboLamp(records, chartId, band, 1)
      && Count(group, FullCombo) == WithComboLamp(records, chartId, band, 2)
      && Count(group, AllJustice) == AllJusticeNotAt(records, chartId, band, 1_010_000)
      && Count(group, AllJusticeCritical) == AllJusticeAt(records, chartId, band, 1_010_000)
  {
    CountIsSize(records, chartId, band, NoCombo, (r: ChartRecord) => r.comboLampId == 1);
    CountIsSize(records, chartId, band, FullCombo, (r: ChartRecord) => r.comboLampId == 2);
    CountIsSize(records, chartId, band, AllJustice,
                (r: ChartRecord) => r.comboLampId == 3 && r.score != 1_010_000);
    CountIsSize(records, chartId, band, AllJusticeCritical,
                (r: ChartRecord) => r.comboLampId == 3 && r.score == 1_010_000);
  }

  /** Every counter of a returned row is the number of the chart's records in the row's band with the
      scores or the lamp it stands for; ranks leave out failed ones. */
  lemma {:induction false} CountersMean(bands: seq<Band>, records: seq<ChartRecord>, k: nat) returns (b: nat)
    requires Contiguous(records) && DistinctIds(bands) && k < |Calculated(bands, records)|
    ensures b < |bands| && bands[b].id == Calculated(bands, records)[k].bandId
    ensures var row := Calculated(bands, records)[k]; var c, band := row.chartId, bands[b];
      && row.playerCount == Size(records, c, band)
      && row.rank.max == ClearedFrom(records, c, band, 1_010_000)
      && row.rank.sssp == ClearedBetween(records, c, band, 1_009_000, 1_010_000)
      && row.rank.sss == ClearedBetween(records, c, band, 1_007_500, 1_009_000)
      && row.rank.ssp == ClearedBetween(records, c, band, 1_005_000, 1_007_500)
      && row.rank.ss == ClearedBetween(records, c, band, 1_000_000, 1_005_000)
      && row.rank.sp == ClearedBetween(records, c, band, 990_000, 1_000_000)
      && row.rank.s == ClearedBetween(records, c, band, 975_000, 990_000)
      && row.rank.aaal == ClearedBelow(records, c, band, 975_000)
      && row.clear.failed == WithClearLamp(records, c, band, 1)
      && row.clear.clear == WithClearLamp(records, c, band, 2)
      && row.clear.hard == WithClearLamp(records, c, band, 3)
      && row.clear.brave == WithClearLamp(records, c, band, 4)
      && row.clear.absolute == WithClearLamp(records, c, band, 5)
      && row.clear.catastrophy == WithClearLamp(records, c, band, 6)
      && row.combo.none == WithComboLamp(records, c, band, 1)
      && row.combo.fc == WithComboLamp(records, c, band, 2)
      && row.combo.aj == AllJusticeNotAt(records, c, band, 1_010_000)
      && row.combo.ajc == AllJusticeAt(records, c, band, 1_010_000)
  {
    b := RowOfBand(bands, records, k);
    var c, band := Calculated(bands, records)[k].chartId, bands[b];
    PlayersAreCounted(Within(Only(records, c), band));
    CountIsSize(records, c, band, Players, (r: ChartRecord) => true);
    UpperRanks(records, c, band);
    LowerRanks(records, c, band);
    ClearLamps(records, c, band);
    ComboLamps(records, c, band);
  }

  /** A chart has a row for a band exactly if some record of it is in the band. */
  lemma {:induction false} RowIffRecords(bands: seq<Band>, records: seq<ChartRecord>, chartId: int, b: nat)
    requires Contiguous(records) && DistinctIds(bands) && b < |bands|
    ensures HasRow(Calculated(bands, records), chartId, bands[b].id)
       <==> Size(records, chartId, bands[b]) > 0
  {
    CalculatedTotal(bands, records, chartId, b, Players);
    PlayersAreCounted(Within(Only(records, chartId), bands[b]));
    CountIsSize(records, chartId, bands[b], Players, (r: ChartRecord) => true);
  }

  // ---------- average and median ----------

  /** The scores of a chart's records within a band that are not failed. */
  ghost function ScoresIn(records: seq<ChartRecord>, chartId: int, band: Band): seq<int> {
    if records == [] then []
    else
      var last := records[|records| - 1];
      ScoresIn(records[..|records| - 1], chartId, band)
      + (if last.chartId == chartId && InBand(band, last.rating) && last.clearLampId != 1 then [last.score] else [])
  }

  ghost function SumOf(scores: seq<int>): int {
    if scores == [] then 0 else SumOf(scores[..|scores| - 1]) + scores[|scores| - 1]
  }

  lemma {:induction false} ScoresAre(records: seq<ChartRecord>, chartId: int, band: Band)
    ensures ScoresIn(records, chartId, band) == ClearedScores(Within(Only(records, chartId), band))
    ensures |ScoresIn(records, chartId, band)|
         == |Positions(records, chartId, band, (r: ChartRecord) => r.clearLampId != 1)|
  {
    var what := (r: ChartRecord) => r.clearLampId != 1;
    if records == [] {
      assert Positions(records, chartId, band, what) == {};
    } else {
      var init, last := records[..|records| - 1], records[|records| - 1];
      assert records == init + [last];
      ScoresAre(init, chartId, band);
      GroupSnoc(init, last, chartId, band);
      PositionsSnoc(init, last, chartId, band, what);
      if Fits(last, chartId, band) {
        ScoresSnoc(Within(Only(init, chartId), band), last);
      } else {
        assert Within(Only(records, chartId), band) == Within(Only(init, chartId), band);
      }
    }
  }

  lemma {:induction false} SumIsTotal(scores: seq<int>)
    ensures SumOf(scores) == Total(scores)
  {
    if scores != [] {
      SumIsTotal(scores[..|scores| - 1]);
    }
  }

  /** Times the number of scores, it is their sum; there is none of no scores. */
  ghost predicate IsAverage(average: Option<real>, scores: seq<int>) {
    match average
    case None => scores == []
    case Some(value) => scores != [] && value * |scores| as real == SumOf(scores) as real
  }

  lemma {:induction false} AverageTimesCount(scores: seq<int>)
    ensures IsAverage(if scores == [] then None else Some(Average(scores)), scores)
  {
    SumIsTotal(scores);
  }

  /** Average and median of a row come from the scores of its records. */
  lemma {:induction false} RowScores(records: seq<ChartRecord>, chartId: int, band: Band, row: Stats)
    requires IsRowOf(row, chartId, band, Only(records, chartId))
    ensures var scores := ScoresIn(records, chartId, band);
      && row.averageScore == (if scores == [] then None else Some(Average(scores)))
      && row.medianScore == if scores == [] then None else Some(Median(scores))
  {
    ScoresAre(records, chartId, band);
  }

  /** The average times the number of records that are not failed is the sum of their scores. */
  lemma {:induction false} AverageMeans(bands: seq<Band>, records: seq<ChartRecord>, k: nat) returns (b: nat)
    requires Contiguous(records) && DistinctIds(bands) && k < |Calculated(bands, records)|
    ensures b < |bands| && bands[b].id == Calculated(bands, records)[k].bandId
    ensures var row := Calculated(bands, records)[k]; var scores := ScoresIn(records, row.chartId, bands[b]);
      && |scores| == |Positions(records, row.chartId, bands[b], (r: ChartRecord) => r.clearLampId != 1)|
      && IsAverage(row.averageScore, scores)
  {
    b := RowOfBand(bands, records, k);
    var row := Calculated(bands, records)[k];
    var scores := ScoresIn(records, row.chartId, bands[b]);
    ScoresAre(records, row.chartId, bands[b]);
    RowScores(records, row.chartId, bands[b], row);
    AverageTimesCount(scores);
  }

  lemma {:induction false} MiddleOfSorted(scores: seq<int>, sorted: seq<int>)
    requires scores != [] && multiset(sorted) == multiset(scores) && Ordered(sorted)
    ensures |sorted| == |scores|
    ensures Median(scores) == (sorted[(|sorted| - 1) / 2] as real + sorted[|sorted| / 2] as real) / 2.0
  {
    assert |multiset(sorted)| == |multiset(scores)|;
    SortedIs(scores);
    OrderedIsUnique(sorted, Sorted(scores));
  }

  /** The median is the middle of those scores in ascending order, or the mean of the two middle
      ones. */
  lemma {:induction false} MedianMeans(
    bands: seq<Band>, records: seq<ChartRecord>, k: nat, b: nat, sorted: seq<int>)
    requires Contiguous(records) && DistinctIds(bands) && k < |Calculated(bands, records)|
    requires b < |bands| && bands[b].id == Calculated(bands, records)[k].bandId
    requires multiset(sorted) == multiset(ScoresIn(records, Calculated(bands, records)[k].chartId, bands[b]))
    requires Ordered(sorted)
    ensures var row := Calculated(bands, records)[k];
      && (row.medianScore.None? <==> sorted == [])
      && (row.medianScore.Some? ==>
            row.medianScore.value
            == (sorted[(|sorted| - 1) / 2] as real + sorted[|sorted| / 2] as real) / 2.0)
  {
    var at := RowOfBand(bands, records, k);
    var row := Calculated(bands, records)[k];
    assert bands[at].id == bands[b].id && at == b;
    var scores := ScoresIn(records, row.chartId, bands[b]);
    RowScores(records, row.chartId, bands[b], row);
    assert |multiset(sorted)| == |multiset(scores)|;
    if scores != [] {
      MiddleOfSorted(scores, sorted);
    }
  }

  // ---------- the order of the rows ----------

  lemma {:induction false} GroupRowsInOrder(
    bands: seq<Band>, chartId: int, records: seq<ChartRecord>, k: nat, l: nat) returns (a: nat, b: nat)
    requires k < l < |GroupRows(bands, chartId, records)|
    ensures a < b < |bands|
    ensures IsAbout(GroupRows(bands, chartId, records)[k], chartId, bands[a].id)
    ensures IsAbout(GroupRows(bands, chartId, records)[l], chartId, bands[b].id)
  {
    var n := |bands| - 1;
    var rows, before := GroupRows(bands, chartId, records), GroupRows(bands[..n], chartId, records);
    if l < |before| {
      assert rows[k] == before[k] && rows[l] == before[l];
      a, b := GroupRowsInOrder(bands[..n], chartId, records, k, l);
    } else {
      assert rows[k] == before[k];
      a := GroupRowIs(bands[..n], chartId, records, before[k]);
      b := n;
    }
  }

  /** A row of the chart and the band at these positions. */
  ghost predicate IsPlaced(row: Stats, charts: seq<int>, bands: seq<Band>, c: nat, b: nat) {
    c < |charts| && b < |bands| && IsAbout(row, charts[c], bands[b].id)
  }

  lemma {:induction false} PlacedInLast(
    all: seq<Stats>, before: seq<Stats>, last: seq<Stats>, charts: seq<int>, bands: seq<Band>, m: nat, b: nat,
    chartId: int)
    requires charts != [] && all == before + last && m < |last| && b < |bands|
    requires chartId == charts[|charts| - 1] && IsAbout(last[m], chartId, bands[b].id)
    ensures IsPlaced(all[|before| + m], charts, bands, |charts| - 1, b)
  {
  }

  lemma {:induction false} PlacedBefore(
    all: seq<Stats>, before: seq<Stats>, last: seq<Stats>, charts: seq<int>, bands: seq<Band>, k: nat, c: nat, b: nat)
    requires charts != [] && all == before + last && k < |before|
    requires IsPlaced(before[k], charts[..|charts| - 1], bands, c, b)
    ensures IsPlaced(all[k], charts, bands, c, b)
  {
  }

  /** The last rows come after those before them. */
  lemma {:induction false} LastRowsInOrder(
    bands: seq<Band>, charts: seq<int>, group: seq<ChartRecord>, before: seq<Stats>, last: seq<Stats>, k: nat, l: nat)
    returns (a: nat, b: nat)
    requires charts != [] && last == GroupRows(bands, charts[|charts| - 1], group)
    requires |before| <= k < l < |before + last|
    ensures a < b && IsPlaced((before + last)[k], charts, bands, |charts| - 1, a)
    ensures IsPlaced((before + last)[l], charts, bands, |charts| - 1, b)
  {
    var x := charts[|charts| - 1];
    a, b := GroupRowsInOrder(bands, x, group, k - |before|, l - |before|);
    PlacedInLast(before + last, before, last, charts, bands, k - |before|, a, x);
    PlacedInLast(before + last, before, last, charts, bands, l - |before|, b, x);
  }

  lemma {:induction false} LastRowPlaced(
    bands: seq<Band>, charts: seq<int>, group: seq<ChartRecord>, before: seq<Stats>, last: seq<Stats>, l: nat)
    returns (b: nat)
    requires charts != [] && last == GroupRows(bands, charts[|charts| - 1], group)
    requires |before| <= l < |before + last|
    ensures IsPlaced((before + last)[l], charts, bands, |charts| - 1, b)
  {
    b := RowAt(bands, charts[|charts| - 1], group, l - |before|);
    PlacedInLast(before + last, before, last, charts, bands, l - |before|, b, charts[|charts| - 1]);
  }

  function ChartRows(bands: seq<Band>, records: seq<ChartRecord>, charts: seq<int>): seq<Stats> {
    Rows(bands, OnlyAll(records, charts))
  }

  lemma {:induction false} ChartRowsSplit(bands: seq<Band>, records: seq<ChartRecord>, charts: seq<int>)
    requires charts != [] && Occurring(records, charts)
    ensures var n := |charts| - 1;
      && Occurring(records, charts[..n])
      && ChartRows(bands, records, charts)
         == ChartRows(bands, records, charts[..n]) + GroupRows(bands, charts[n], Only(records, charts[n]))
  {
    RowsSplit(bands, records, charts);
  }

  lemma {:induction false} NoChartsNoRows(bands: seq<Band>, records: seq<ChartRecord>)
    ensures ChartRows(bands, records, []) == []
  {
  }

  lemma {:induction false} ChartRowsInOrder(
    bands: seq<Band>, records: seq<ChartRecord>, charts: seq<int>, rows: seq<Stats>, k: nat, l: nat)
    returns (c: nat, a: nat, d: nat, b: nat)
    requires Occurring(records, charts) && rows == ChartRows(bands, records, charts) && k < l < |rows|
    ensures c < d || (c == d && a < b)
    ensures IsPlaced(rows[k], charts, bands, c, a) && IsPlaced(rows[l], charts, bands, d, b)
  {
    if charts == [] {
      NoChartsNoRows(bands, records);
    }
    var n := |charts| - 1;
    ChartRowsSplit(bands, records, charts);
    var before, last := ChartRows(bands, records, charts[..n]), GroupRows(bands, charts[n], Only(records, charts[n]));
    if l < |before| {
      c, a, d, b := ChartRowsInOrder(bands, records, charts[..n], before, k, l);
      PlacedBefore(rows, before, last, charts, bands, k, c, a);
      PlacedBefore(rows, before, last, charts, bands, l, d, b);
    } else {
      c, a, b := RowsUpToLast(bands, records, charts, Only(records, charts[n]), before, last, k, l);
      d := n;
    }
  }

  lemma {:induction false} RowsUpToLast(
    bands: seq<Band>, records: seq<ChartRecord>, charts: seq<int>, group: seq<ChartRecord>,
    before: seq<Stats>, last: seq<Stats>, k: nat, l: nat)
    returns (c: nat, a: nat, b: nat)
    requires charts != [] && Occurring(records, charts[..|charts| - 1])
    requires before == Rows(bands, OnlyAll(records, charts[..|charts| - 1]))
    requires last == GroupRows(bands, charts[|charts| - 1], group)
    requires k < l && |before| <= l < |before + last|
    ensures c < |charts| - 1 || (c == |charts| - 1 && a < b)
    ensures IsPlaced((before + last)[k], charts, bands, c, a)
    ensures IsPlaced((before + last)[l], charts, bands, |charts| - 1, b)
  {
    if k < |before| {
      c, a := RowIs(bands, records, charts[..|charts| - 1], before[k]);
      PlacedBefore(before + last, before, last, charts, bands, k, c, a);
      b := LastRowPlaced(bands, charts, group, before, last, l);
    } else {
      c := |charts| - 1;
      a, b := LastRowsInOrder(bands, charts, group, before, last, k, l);
    }
  }

  lemma {:induction false} RowAt(bands: seq<Band>, chartId: int, records: seq<ChartRecord>, k: nat) returns (b: nat)
    requires k < |GroupRows(bands, chartId, records)|
    ensures b < |bands| && IsAbout(GroupRows(bands, chartId, records)[k], chartId, bands[b].id)
  {
    b := GroupRowIs(bands, chartId, records, GroupRows(bands, chartId, records)[k]);
  }

  ghost predicate FirstAt(ids: seq<int>, id: int, i: nat) {
    i < |ids| && ids[i] == id && id !in ids[..i]
  }

  lemma {:induction false} FirstSeenAt(ids: seq<int>, c: nat) returns (i: nat)
    requires c < |FirstSeen(ids)|
    ensures FirstAt(ids, FirstSeen(ids)[c], i)
  {
    var n := |ids| - 1;
    if c < |FirstSeen(ids[..n])| {
      i := FirstSeenAt(ids[..n], c);
      assert ids[..n][..i] == ids[..i];
    } else {
      i := n;
      FirstSeenIs(ids[..n]);
    }
  }

  lemma {:induction false} FirstSeenInOrder(ids: seq<int>, c: nat, d: nat) returns (i: nat, j: nat)
    requires c < d < |FirstSeen(ids)|
    ensures i < j && FirstAt(ids, FirstSeen(ids)[c], i) && FirstAt(ids, FirstSeen(ids)[d], j)
  {
    var n := |ids| - 1;
    FirstSeenIs(ids[..n]);
    if d < |FirstSeen(ids[..n])| {
      i, j := FirstSeenInOrder(ids[..n], c, d);
      assert ids[..n][..j] == ids[..j];
    } else {
      i := FirstSeenAt(ids[..n], c);
      j := n;
    }
    assert ids[..n][..i] == ids[..i];
  }

  /** Rows come chart by chart, as the charts first occur, and in the order of the bands. */
  lemma {:induction false} RowsInOrder(bands: seq<Band>, records: seq<ChartRecord>, k: nat, l: nat)
    returns (i: nat, a: nat, j: nat, b: nat)
    requires Contiguous(records) && DistinctIds(bands) && k < l < |Calculated(bands, records)|
    ensures a < |bands| && b < |bands| && (i < j || (i == j && a < b))
    ensures var rows := Calculated(bands, records);
      && rows[k].bandId == bands[a].id && FirstAt(ChartIds(records), rows[k].chartId, i)
      && rows[l].bandId == bands[b].id && FirstAt(ChartIds(records), rows[l].chartId, j)
  {
    var charts := FirstSeen(ChartIds(records));
    CalculatedIs(bands, records);
    var c, d;
    c, a, d, b := ChartRowsInOrder(bands, records, charts, Calculated(bands, records), k, l);
    if c < d {
      i, j := FirstSeenInOrder(ChartIds(records), c, d);
    } else {
      i := FirstSeenAt(ChartIds(records), c);
      j := i;
    }
  }
}
