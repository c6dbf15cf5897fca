/** The statistics of bands that split a larger band, as the calculator returns them. */
module ChartStatsBands {
  import opened Common
  import opened Sequences
  import opened ChartStatsRows
  import opened ChartStats
  import opened ChartStatsLaws

  // ---------- reading the returned rows ----------

  function Field(row: Stats, kind: Kind): nat {
    match kind
    case Players => row.playerCount
    case Failed => row.clear.failed
    case Clear => row.clear.clear
    case Hard => row.clear.hard
    case Brave => row.clear.brave
    case Absolute => row.clear.absolute
    case Catastrophy => row.clear.catastrophy
    case NoCombo => row.combo.none
    case FullCombo => row.combo.fc
    case AllJustice => row.combo.aj
    case AllJusticeCritical => row.combo.ajc
    case RankMax => row.rank.max
    case RankSSSP => row.rank.sssp
    case RankSSS => row.rank.sss
    case RankSSP => row.rank.ssp
    case RankSS => row.rank.ss
    case RankSP => row.rank.sp
    case RankS => row.rank.s
    case RankAAAL => row.rank.aaal
  }

  predicate IsAbout(row: Stats, chartId: int, bandId: int) {
    row.chartId == chartId && row.bandId == bandId
  }

  predicate HasRow(rows: seq<Stats>, chartId: int, bandId: int) {
    exists i :: 0 <= i < |rows| && IsAbout(rows[i], chartId, bandId)
  }

  /** A counter summed over the rows of a chart and a band. */
  function BandTotal(rows: seq<Stats>, chartId: int, bandId: int, kind: Kind): nat {
    if rows == [] then 0
    else
      var last := rows[|rows| - 1];
      BandTotal(rows[..|rows| - 1], chartId, bandId, kind)
      + (if IsAbout(last, chartId, bandId) then Field(last, kind) else 0)
  }

  /** A counter summed over the rows of a chart and several bands; a band without a row adds nothing. */
  function PartsTotal(rows: seq<Stats>, chartId: int, parts: seq<Band>, kind: Kind): nat {
    if parts == [] then 0
    else
      PartsTotal(rows, chartId, parts[..|parts| - 1], kind)
      + BandTotal(rows, chartId, parts[|parts| - 1].id, kind)
  }

  ghost predicate DistinctIds(bands: seq<Band>) {
    forall i, j :: 0 <= i < j < |bands| ==> bands[i].id != bands[j].id
  }

  // ---------- the rows of one chart ----------

  lemma {:induction false} FieldIsCount(chartId: int, bandId: int, records: seq<ChartRecord>, kind: Kind)
    ensures Field(RowOf(chartId, bandId, records), kind) == Count(records, kind)
  {
    PlayersAreCounted(records);
  }

  lemma {:induction false} BandTotalJoin(a: seq<Stats>, b: seq<Stats>, chartId: int, bandId: int, kind: Kind)
    ensures BandTotal(a + b, chartId, bandId, kind)
         == BandTotal(a, chartId, bandId, kind) + BandTotal(b, chartId, bandId, kind)
    decreases |b|
  {
    if b == [] {
      assert a + b == a;
    } else {
      assert (a + b)[..|a + b| - 1] == a + b[..|b| - 1];
      BandTotalJoin(a, b[..|b| - 1], chartId, bandId, kind);
    }
  }

  lemma {:induction false} NoRowNoTotal(rows: seq<Stats>, chartId: int, bandId: int, kind: Kind)
    requires !HasRow(rows, chartId, bandId)
    ensures BandTotal(rows, chartId, bandId, kind) == 0
  {
    if rows != [] {
      var n := |rows| - 1;
      assert forall i :: 0 <= i < n ==> rows[..n][i] == rows[i];
      NoRowNoTotal(rows[..n], chartId, bandId, kind);
    }
  }

  /** The row of a chart and a band, if it has records. */
  function RowIfAny(chartId: int, band: Band, records: seq<ChartRecord>): seq<Stats> {
    if Within(records, band) == [] then [] else [RowOf(chartId, band.id, Within(records, band))]
  }

  lemma {:induction false} RowIfAnyTotal(chartId: int, band: Band, records: seq<ChartRecord>, kind: Kind)
    ensures BandTotal(RowIfAny(chartId, band, records), chartId, band.id, kind) == Count(Within(records, band), kind)
  {
    if Within(records, band) != [] {
      FieldIsCount(chartId, band.id, Within(records, band), kind);
      assert RowIfAny(chartId, band, records)[..0] == [];
    }
  }

  /** The row of these records, if the band has any of them. */
  predicate IsRowOf(row: Stats, chartId: int, band: Band, records: seq<ChartRecord>) {
    Within(records, band) != [] && row == RowOf(chartId, band.id, Within(records, band))
  }

  /** Every row of a chart is that of a band with records. */
  lemma {:induction false} GroupRowIs(bands: seq<Band>, chartId: int, records: seq<ChartRecord>, row: Stats)
    returns (b: nat)
    requires row in GroupRows(bands, chartId, records)
    ensures b < |bands| && IsRowOf(row, chartId, bands[b], records)
  {
    var n := |bands| - 1;
    if row in GroupRows(bands[..n], chartId, records) {
      b := GroupRowIs(bands[..n], chartId, records, row);
    } else {
      b := n;
    }
  }

  lemma {:induction false} GroupRowsTotal(
    bands: seq<Band>, chartId: int, records: seq<ChartRecord>, b: nat, kind: Kind)
    requires DistinctIds(bands) && b < |bands|
    ensures BandTotal(GroupRows(bands, chartId, records), chartId, bands[b].id, kind)
         == Count(Within(records, bands[b]), kind)
  {
    var n := |bands| - 1;
    var init, last := GroupRows(bands[..n], chartId, records), RowIfAny(chartId, bands[n], records);
    assert GroupRows(bands, chartId, records) == init + last;
    BandTotalJoin(init, last, chartId, bands[b].id, kind);
    if b < n {
      GroupRowsTotal(bands[..n], chartId, records, b, kind);
      NoRowNoTotal(last, chartId, bands[b].id, kind);
    } else {
      if HasRow(init, chartId, bands[n].id) {
        var k :| 0 <= k < |init| && IsAbout(init[k], chartId, bands[n].id);
        var other := GroupRowIs(bands[..n], chartId, records, init[k]);
      }
      NoRowNoTotal(init, chartId, bands[n].id, kind);
      RowIfAnyTotal(chartId, bands[n], records, kind);
    }
  }

  // ---------- the rows of all charts ----------

  function OnlyAll(records: seq<ChartRecord>, charts: seq<int>): seq<seq<ChartRecord>> {
    Map((chartId: int) => Only(records, chartId), charts)
  }

  ghost predicate Occurring(records: seq<ChartRecord>, charts: seq<int>) {
    Distinct(charts) && forall k :: 0 <= k < |charts| ==> Only(records, charts[k]) != []
  }

  lemma {:induction false} RowsSplit(bands: seq<Band>, records: seq<ChartRecord>, charts: seq<int>)
    requires charts != [] && Occurring(records, charts)
    ensures var n := |charts| - 1;
      Rows(bands, OnlyAll(records, charts))
      == Rows(bands, OnlyAll(records, charts[..n])) + GroupRows(bands, charts[n], Only(records, charts[n]))
  {
    var n := |charts| - 1;
    assert OnlyAll(records, charts)[..n] == OnlyAll(records, charts[..n]);
    OnlyIs(records, charts[n]);
  }

  /** Every returned row is that of a chart and a band with records. */
  lemma {:induction false} RowIs(bands: seq<Band>, records: seq<ChartRecord>, charts: seq<int>, row: Stats)
    returns (c: nat, b: nat)
    requires Occurring(records, charts) && row in Rows(bands, OnlyAll(records, charts))
    ensures c < |charts| && b < |bands| && IsRowOf(row, charts[c], bands[b], Only(records, charts[c]))
  {
    assert charts != [];
    var n := |charts| - 1;
    RowsSplit(bands, records, charts);
    if row in Rows(bands, OnlyAll(records, charts[..n])) {
      c, b := RowIs(bands, records, charts[..n], row);
    } else {
      c := n;
      b := GroupRowIs(bands, charts[n], Only(records, charts[n]), row);
    }
  }

  lemma {:induction false} OtherChartNoRow(
    bands: seq<Band>, chartId: int, records: seq<ChartRecord>, other: int, bandId: int, kind: Kind)
    requires other != chartId
    ensures BandTotal(GroupRows(bands, chartId, records), other, bandId, kind) == 0
  {
    var rows := GroupRows(bands, chartId, records);
    if HasRow(rows, other, bandId) {
      var k :| 0 <= k < |rows| && IsAbout(rows[k], other, bandId);
      var b := GroupRowIs(bands, chartId, records, rows[k]);
    }
    NoRowNoTotal(rows, other, bandId, kind);
  }

  lemma {:induction false} RowsTotal(
    bands: seq<Band>, records: seq<ChartRecord>, charts: seq<int>, chartId: int, b: nat, kind: Kind)
    requires DistinctIds(bands) && b < |bands| && Occurring(records, charts)
    ensures BandTotal(Rows(bands, OnlyAll(records, charts)), chartId, bands[b].id, kind)
         == if chartId in charts then Count(Within(Only(records, chartId), bands[b]), kind) else 0
    decreases |charts|
  {
    if charts != [] {
      var n := |charts| - 1;
      RowsSplit(bands, records, charts);
      RowsTotal(bands, records, charts[..n], chartId, b, kind);
      var group := Only(records, charts[n]);
      BandTotalJoin(Rows(bands, OnlyAll(records, charts[..n])), GroupRows(bands, charts[n], group),
                    chartId, bands[b].id, kind);
      if chartId == charts[n] {
        GroupRowsTotal(bands, chartId, group, b, kind);
      } else {
        OtherChartNoRow(bands, charts[n], group, chartId, bands[b].id, kind);
      }
    }
  }

  // ---------- what the calculator returns ----------

  function Calculated(bands: seq<Band>, records: seq<ChartRecord>): seq<Stats> {
    Rows(bands, Flushed(StreamOf(records)).closed)
  }

  lemma {:induction false} CalculatedIs(bands: seq<Band>, records: seq<ChartRecord>)
    requires Contiguous(records)
    ensures var charts := FirstSeen(ChartIds(records));
      && Occurring(records, charts) && Calculated(bands, records) == Rows(bands, OnlyAll(records, charts))
      && forall chartId :: chartId !in charts ==> Only(records, chartId) == []
  {
    var charts := FirstSeen(ChartIds(records));
    FirstSeenIs(ChartIds(records));
    StreamIsGrouping(records);
    assert GroupsBy(records) == OnlyAll(records, charts);
    forall k | 0 <= k < |charts| ensures Only(records, charts[k]) != [] {
      OnlyIs(records, charts[k]);
      assert charts[k] in ChartIds(records);
    }
    forall chartId | chartId !in charts ensures Only(records, chartId) == [] {
      NoneOfChart(records, chartId);
    }
  }

  /** The counters of the rows of a chart and a band count the chart's records in the band; a row
      is there exactly if there are any. */
  lemma {:induction false} CalculatedTotal(
    bands: seq<Band>, records: seq<ChartRecord>, chartId: int, b: nat, kind: Kind)
    requires Contiguous(records) && DistinctIds(bands) && b < |bands|
    ensures BandTotal(Calculated(bands, records), chartId, bands[b].id, kind)
         == Count(Within(Only(records, chartId), bands[b]), kind)
    ensures HasRow(Calculated(bands, records), chartId, bands[b].id)
        <==> Within(Only(records, chartId), bands[b]) != []
  {
    var charts, rows := FirstSeen(ChartIds(records)), Calculated(bands, records);
    CalculatedIs(bands, records);
    RowsTotal(bands, records, charts, chartId, b, kind);
    RowsTotal(bands, records, charts, chartId, b, Players);
    PlayersAreCounted(Within(Only(records, chartId), bands[b]));
    if HasRow(rows, chartId, bands[b].id) {
      var k :| 0 <= k < |rows| && IsAbout(rows[k], chartId, bands[b].id);
      var c, b' := RowIs(bands, records, charts, rows[k]);
      assert b' == b;
    } else {
      NoRowNoTotal(rows, chartId, bands[b].id, Players);
    }
  }

  /** A row carries the whole total of its chart and band: no other row is about them. */
  lemma {:induction false} CalculatedRow(bands: seq<Band>, records: seq<ChartRecord>, k: nat) returns (b: nat)
    requires Contiguous(records) && DistinctIds(bands) && k < |Calculated(bands, records)|
    ensures b < |bands| && bands[b].id == Calculated(bands, records)[k].bandId
    ensures var rows := Calculated(bands, records);
      forall kind :: Field(rows[k], kind) == BandTotal(rows, rows[k].chartId, rows[k].bandId, kind)
  {
    var charts, row := FirstSeen(ChartIds(records)), Calculated(bands, records)[k];
    CalculatedIs(bands, records);
    var c;
    c, b := RowIs(bands, records, charts, row);
    forall kind
      ensures Field(row, kind) == BandTotal(Calculated(bands, records), row.chartId, bands[b].id, kind)
    {
      CalculatedTotal(bands, records, row.chartId, b, kind);
      FieldIsCount(charts[c], bands[b].id, Within(Only(records, charts[c]), bands[b]), kind);
    }
  }

  lemma {:induction false} PartsTotalIs(
    bands: seq<Band>, records: seq<ChartRecord>, chartId: int, parts: seq<Band>, kind: Kind)
    requires Contiguous(records) && DistinctIds(bands) && forall part :: part in parts ==> part in bands
    ensures PartsTotal(Calculated(bands, records), chartId, parts, kind)
         == SumOver(parts, Only(records, chartId), kind)
    decreases |parts|
  {
    if parts != [] {
      var n := |parts| - 1;
      PartsTotalIs(bands, records, chartId, parts[..n], kind);
      assert parts[n] in bands;
      var b :| 0 <= b < |bands| && bands[b] == parts[n];
      CalculatedTotal(bands, records, chartId, b, kind);
    }
  }

  lemma {:induction false} SomePartHasRow(rows: seq<Stats>, chartId: int, parts: seq<Band>) returns (i: nat)
    requires PartsTotal(rows, chartId, parts, Players) > 0
    ensures i < |parts| && HasRow(rows, chartId, parts[i].id)
  {
    var n := |parts| - 1;
    if BandTotal(rows, chartId, parts[n].id, Players) > 0 {
      i := n;
      if !HasRow(rows, chartId, parts[n].id) {
        NoRowNoTotal(rows, chartId, parts[n].id, Players);
      }
    } else {
      i := SomePartHasRow(rows, chartId, parts[..n]);
    }
  }

  lemma {:induction false} PartAddsToTotal(rows: seq<Stats>, chartId: int, parts: seq<Band>, i: nat, kind: Kind)
    requires i < |parts|
    ensures BandTotal(rows, chartId, parts[i].id, kind) <= PartsTotal(rows, chartId, parts, kind)
    decreases |parts|
  {
    if i < |parts| - 1 {
      PartAddsToTotal(rows, chartId, parts[..|parts| - 1], i, kind);
    }
  }

  /** If bands split a larger one, every counter of the larger band's row is the sum of that
      counter over the rows of the parts. */
  lemma {:induction false} RowsOfPartsAddUp(
    bands: seq<Band>, records: seq<ChartRecord>, parts: seq<Band>, whole: Band, k: nat, kind: Kind)
    requires Contiguous(records) && DistinctIds(bands)
    requires whole in bands && (forall part :: part in parts ==> part in bands) && Splits(parts, whole)
    requires k < |Calculated(bands, records)| && Calculated(bands, records)[k].bandId == whole.id
    ensures Field(Calculated(bands, records)[k], kind)
         == PartsTotal(Calculated(bands, records), Calculated(bands, records)[k].chartId, parts, kind)
  {
    var chartId := Calculated(bands, records)[k].chartId;
    var b := CalculatedRow(bands, records, k);
    assert bands[b] == whole;
    CalculatedTotal(bands, records, chartId, b, kind);
    PartsTotalIs(bands, records, chartId, parts, kind);
    CountsOfPartsAddUp(parts, whole, Only(records, chartId), kind);
  }

  /** The larger band has a row for a chart exactly if one of the parts has. */
  lemma {:induction false} WholeHasRowIff(
    bands: seq<Band>, records: seq<ChartRecord>, parts: seq<Band>, whole: Band, chartId: int)
    requires Contiguous(records) && DistinctIds(bands)
    requires whole in bands && (forall part :: part in parts ==> part in bands) && Splits(parts, whole)
    ensures HasRow(Calculated(bands, records), chartId, whole.id)
       <==> exists i :: 0 <= i < |parts| && HasRow(Calculated(bands, records), chartId, parts[i].id)
  {
    var rows := Calculated(bands, records);
    var b :| 0 <= b < |bands| && bands[b] == whole;
    CalculatedTotal(bands, records, chartId, b, Players);
    PlayersAreCounted(Within(Only(records, chartId), whole));
    PartsTotalIs(bands, records, chartId, parts, Players);
    CountsOfPartsAddUp(parts, whole, Only(records, chartId), Players);
    if HasRow(rows, chartId, whole.id) {
      var i := SomePartHasRow(rows, chartId, parts);
    }
    if i :| 0 <= i < |parts| && HasRow(rows, chartId, parts[i].id) {
      assert parts[i] in bands;
      var p :| 0 <= p < |bands| && bands[p] == parts[i];
      CalculatedTotal(bands, records, chartId, p, Players);
      PlayersAreCounted(Within(Only(records, chartId), parts[i]));
      PartAddsToTotal(rows, chartId, parts, i, Players);
    }
  }
}
