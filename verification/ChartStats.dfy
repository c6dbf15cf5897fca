/** The calculator of the chart statistics: one pass over the records, flushed chart by chart. */
module ChartStats {
  import opened Common
  import opened ChartStatsRows

  /** Sorting integers leaves nothing open. */
  method Sort(scores: seq<int>) returns (sorted: seq<int>)
    ensures sorted == Sorted(scores)
  {
    return Sorted(scores);
  }

  class ChartStatsAccumulator {
    var stats: Stats
    var clearedScoreTotal: int
    var clearedScores: seq<int>
    ghost var records: seq<ChartRecord>

    constructor (chartId: int, bandId: int)
      ensures Valid() && records == [] && stats.chartId == chartId && stats.bandId == bandId
    {
      this.stats := Stats(
        chartId, bandId, 0, ClearCounts(0, 0, 0, 0, 0, 0), ComboCounts(0, 0, 0, 0),
        RankCounts(0, 0, 0, 0, 0, 0, 0, 0), None, None);
      this.clearedScoreTotal := 0;
      this.clearedScores := [];
      this.records := [];
    }

    /** The fields are what the records added so far amount to. */
    ghost predicate Valid()
      reads this
    {
      && stats == Stats(stats.chartId, stats.bandId, |records|, ClearOf(records), ComboOf(records), RankOf(records),
                        None, None)
      && clearedScores == ClearedScores(records) && clearedScoreTotal == Total(clearedScores)
    }

    method Add(record: ChartRecord)
      requires Valid()
      modifies this
      ensures Valid() && records == old(records) + [record]
      ensures stats.chartId == old(stats.chartId) && stats.bandId == old(stats.bandId)
    {
      ghost var before := records;
      stats := stats.(playerCount := stats.playerCount + 1);
      AddClearLamp(record.clearLampId);
      AddComboLamp(record.comboLampId, record.score);
      if record.clearLampId != 1 {
        TotalSnoc(clearedScores, record.score);
        AddClearedScore(record.score);
      }
      ClearSnoc(before, record);
      ComboSnoc(before, record);
      RankSnoc(before, record);
      ScoresSnoc(before, record);
      records := before + [record];
    }

    method AddClearLamp(clearLampId: int)
      modifies this`stats
      ensures stats == old(stats).(clear := ClearAfter(old(stats.clear), clearLampId))
    {
      var clear := stats.clear;
      match clearLampId {
        case 1 => clear := clear.(failed := clear.failed + 1);
        case 2 => clear := clear.(clear := clear.clear + 1);
        case 3 => clear := clear.(hard := clear.hard + 1);
        case 4 => clear := clear.(brave := clear.brave + 1);
        case 5 => clear := clear.(absolute := clear.absolute + 1);
        case 6 => clear := clear.(catastrophy := clear.catastrophy + 1);
        case _ =>
      }
      stats := stats.(clear := clear);
    }

    method AddComboLamp(comboLampId: int, score: int)
      modifies this`stats
      ensures stats == old(stats).(combo := ComboAfter(old(stats.combo), comboLampId, score))
    {
      var combo := stats.combo;
      match comboLampId {
        case 1 => combo := combo.(none := combo.none + 1);
        case 2 => combo := combo.(fc := combo.fc + 1);
        case 3 =>
          if score == SCORE_MAX {
            combo := combo.(ajc := combo.ajc + 1);
          } else {
            combo := combo.(aj := combo.aj + 1);
          }
        case _ =>
      }
      stats := stats.(combo := combo);
    }

    method AddClearedScore(score: int)
      modifies this`stats, this`clearedScoreTotal, this`clearedScores
      ensures stats == old(stats).(rank := RankAfter(old(stats.rank), score))
      ensures clearedScores == old(clearedScores) + [score]
      ensures clearedScoreTotal == old(clearedScoreTotal) + score
    {
      clearedScoreTotal := clearedScoreTotal + score;
      clearedScores := clearedScores + [score];
      var rank := stats.rank;
      if score >= SCORE_MAX {
        rank := rank.(max := rank.max + 1);
      } else if score >= SCORE_SSSP {
        rank := rank.(sssp := rank.sssp + 1);
      } else if score >= SCORE_SSS {
        rank := rank.(sss := rank.sss + 1);
      } else if score >= SCORE_SSP {
        rank := rank.(ssp := rank.ssp + 1);
      } else if score >= SCORE_SS {
        rank := rank.(ss := rank.ss + 1);
      } else if score >= SCORE_SP {
        rank := rank.(sp := rank.sp + 1);
      } else if score >= SCORE_S {
        rank := rank.(s := rank.s + 1);
      } else {
        rank := rank.(aaal := rank.aaal + 1);
      }
      stats := stats.(rank := rank);
    }

    /** The finished row; the scores are sorted in place for it. */
    method Result() returns (row: Stats)
      requires Valid()
      modifies this`clearedScores
      ensures row == RowOf(stats.chartId, stats.bandId, records)
    {
      var count := |clearedScores|;
      if count == 0 {
        return stats;
      }
      var average := clearedScoreTotal as real / count as real;
      assert average == Average(ClearedScores(records));
      clearedScores := Sort(clearedScores);
      var median := MiddleOf(clearedScores);
      assert median == Median(ClearedScores(records));
      return stats.(averageScore := Some(average), medianScore := Some(median));
    }
  }

  method MiddleOf(sorted: seq<int>) returns (median: real)
    requires sorted != []
    ensures median == Middle(sorted)
  {
    var count := |sorted|;
    median := sorted[count / 2] as real;
    if count % 2 == 0 {
      median := (sorted[count / 2 - 1] as real + median) / 2.0;
    }
  }

  /** What was streamed: the records of the finished charts, and of the current one. */
  datatype Stream = Stream(closed: seq<seq<ChartRecord>>, open: seq<ChartRecord>)

  function Flushed(s: Stream): Stream {
    if s.open == [] then s else Stream(s.closed + [s.open], [])
  }

  function Streamed(s: Stream, r: ChartRecord): Stream {
    if s.open != [] && s.open[0].chartId != r.chartId then Stream(s.closed + [s.open], [r])
    else Stream(s.closed, s.open + [r])
  }

  ghost function Among(accumulators: seq<ChartStatsAccumulator?>): set<ChartStatsAccumulator> {
    set a: ChartStatsAccumulator | a in accumulators
  }

  /** The accumulator of a band holds the band's records; it exists once there is one. */
  ghost predicate Holds(a: ChartStatsAccumulator?, chartId: int, band: Band, records: seq<ChartRecord>)
    reads a
  {
    if a == null then Within(records, band) == []
    else a.Valid() && a.records == Within(records, band) && a.records != []
         && a.stats.chartId == chartId && a.stats.bandId == band.id
  }

  ghost predicate NotShared(accumulators: seq<ChartStatsAccumulator?>) {
    forall i, j :: 0 <= i < j < |accumulators| && accumulators[i] != null ==> accumulators[i] != accumulators[j]
  }

  ghost predicate AllHold(
    accumulators: seq<ChartStatsAccumulator?>, chartId: int, bands: seq<Band>, records: seq<ChartRecord>)
    reads Among(accumulators)
  {
    |accumulators| == |bands| && NotShared(accumulators)
    && forall i :: 0 <= i < |accumulators| ==> Holds(accumulators[i], chartId, bands[i], records)
  }

  /** Counts the record if the band contains it; the accumulator is made with its first record. */
  method AddToBand(a0: ChartStatsAccumulator?, band: Band, record: ChartRecord, ghost open: seq<ChartRecord>)
    returns (a: ChartStatsAccumulator?)
    requires Holds(a0, record.chartId, band, open)
    modifies if a0 == null then {} else {a0}
    ensures Holds(a, record.chartId, band, open + [record])
    ensures a == a0 || (a0 == null && a != null && fresh(a))
  {
    WithinSnoc(open, record, band);
    a := a0;
    if !band.Contains(record.rating) {
      return;
    }
    if a == null {
      a := new ChartStatsAccumulator(record.chartId, band.id);
    }
    a.Add(record);
  }

  lemma {:induction false} NotSharedWithNew(
      accumulators: seq<ChartStatsAccumulator?>, i: nat, a: ChartStatsAccumulator?)
    requires NotShared(accumulators) && i < |accumulators|
    requires a == accumulators[i] || a !in accumulators
    ensures NotShared(accumulators[i := a])
  {
  }

  /** The first n bands have counted the record, the others not yet. */
  ghost predicate HoldSplit(
    accumulators: seq<ChartStatsAccumulator?>, bands: seq<Band>, record: ChartRecord, open: seq<ChartRecord>, n: nat)
    reads Among(accumulators)
  {
    |accumulators| == |bands| && NotShared(accumulators)
    && forall j :: 0 <= j < |bands| ==>
         Holds(accumulators[j], record.chartId, bands[j], if j < n then open + [record] else open)
  }

  method AddToNextBand(
    accumulators: seq<ChartStatsAccumulator?>, bands: seq<Band>, record: ChartRecord, ghost open: seq<ChartRecord>,
    i: nat)
    returns (after: seq<ChartStatsAccumulator?>)
    requires i < |bands| && HoldSplit(accumulators, bands, record, open, i)
    modifies Among(accumulators)
    ensures HoldSplit(after, bands, record, open, i + 1)
    ensures fresh(Among(after) - Among(accumulators))
  {
    var a := AddToBand(accumulators[i], bands[i], record, open);
    NotSharedWithNew(accumulators, i, a);
    after := accumulators[i := a];
  }

  method AddToBands(
    accumulators: seq<ChartStatsAccumulator?>, bands: seq<Band>, record: ChartRecord, ghost open: seq<ChartRecord>)
    returns (after: seq<ChartStatsAccumulator?>)
    requires AllHold(accumulators, record.chartId, bands, open)
    modifies Among(accumulators)
    ensures AllHold(after, record.chartId, bands, open + [record])
    ensures fresh(Among(after) - Among(accumulators))
  {
    after := accumulators;
    for i := 0 to |bands|
      invariant HoldSplit(after, bands, record, open, i)
      invariant fresh(Among(after) - Among(accumulators))
    {
      after := AddToNextBand(after, bands, record, open, i);
    }
  }

  class ChartStatsCalculator {
    const ratingBands: seq<Band>
    var currentChartId: int
    var current: Option<seq<ChartStatsAccumulator?>>
    var results: seq<Stats>
    var recordCount: nat
    ghost var stream: Stream

    constructor (ratingBands: seq<Band>)
      ensures Valid() && this.ratingBands == ratingBands && stream == Stream([], []) && recordCount == 0
      ensures Owned() == {}
    {
      this.ratingBands := ratingBands;
      this.currentChartId := 0;
      this.current := None;
      this.results := [];
      this.recordCount := 0;
      this.stream := Stream([], []);
    }

    ghost function Owned(): set<ChartStatsAccumulator>
      reads this
    {
      if current.None? then {} else Among(current.value)
    }

    /** The results are the rows of the finished charts; the accumulators hold the current one. */
    ghost predicate Valid()
      reads this, Owned()
    {
      && results == Rows(ratingBands, stream.closed)
      && (current.None? <==> stream.open == [])
      && (current.Some? ==>
            stream.open[0].chartId == currentChartId
            && AllHold(current.value, currentChartId, ratingBands, stream.open))
    }

    method Flush()
      requires Valid()
      modifies this, Owned()
      ensures Valid() && stream == Flushed(old(stream)) && current.None?
      ensures recordCount == old(recordCount) && currentChartId == old(currentChartId)
    {
      if current.Some? {
        var rows := RowsOf(current.value, ratingBands, currentChartId, stream.open);
        ghost var closed := stream.closed + [stream.open];
        assert closed[..|stream.closed|] == stream.closed;
        results := results + rows;
      }
      stream := Flushed(stream);
      current := None;
    }

    /** Counts the record in every band that contains it; another chart first closes the current
        one. */
    method Add(record: ChartRecord)
      requires Valid()
      modifies this, Owned()
      ensures Valid() && stream == Streamed(old(stream), record) && recordCount == old(recordCount) + 1
      ensures fresh(Owned() - old(Owned()))
    {
      MakeReady(record);
      AddToCurrent(record);
    }

    /** Closes the current chart if it is another one, and begins the record's. */
    method MakeReady(record: ChartRecord)
      requires Valid()
      modifies this, Owned()
      ensures Ready(record) && recordCount == old(recordCount) && Owned() <= old(Owned())
      ensures stream == if old(stream).open != [] && old(stream).open[0].chartId != record.chartId
                        then Flushed(old(stream)) else old(stream)
    {
      if current.Some? && record.chartId != currentChartId {
        Flush();
      }
      if current.None? {
        BeginChart(record);
      }
    }

    method BeginChart(record: ChartRecord)
      requires Valid() && current.None?
      modifies this`current, this`currentChartId
      ensures Ready(record) && Owned() == {}
    {
      current := Some(seq(|ratingBands|, _ => null));
      currentChartId := record.chartId;
    }

    /** The accumulators are there for the record's chart. */
    ghost predicate Ready(record: ChartRecord)
      reads this, Owned()
    {
      && results == Rows(ratingBands, stream.closed)
      && current.Some? && currentChartId == record.chartId
      && (stream.open != [] ==> stream.open[0].chartId == currentChartId)
      && AllHold(current.value, record.chartId, ratingBands, stream.open)
    }

    method AddToCurrent(record: ChartRecord)
      requires Ready(record)
      modifies this, Owned()
      ensures Valid() && recordCount == old(recordCount) + 1
      ensures stream == Stream(old(stream.closed), old(stream.open) + [record])
      ensures fresh(Owned() - old(Owned()))
    {
      var after := AddToBands(current.value, ratingBands, record, stream.open);
      Keep(after, record, stream.open + [record]);
    }

    /** The accumulators hold the current chart with its last record. */
    method Keep(after: seq<ChartStatsAccumulator?>, record: ChartRecord, ghost open: seq<ChartRecord>)
      requires AllHold(after, record.chartId, ratingBands, open) && open != [] && open[0].chartId == record.chartId
      requires results == Rows(ratingBands, stream.closed) && currentChartId == record.chartId
      modifies this`current, this`stream, this`recordCount
      ensures Valid() && stream == Stream(old(stream.closed), open) && recordCount == old(recordCount) + 1
      ensures Owned() == Among(after)
    {
      current := Some(after);
      stream := Stream(stream.closed, open);
      recordCount := recordCount + 1;
    }

    method Results() returns (rows: seq<Stats>)
      requires Valid()
      modifies this, Owned()
      ensures Valid() && stream == Flushed(old(stream))
      ensures rows == Rows(ratingBands, stream.closed)
    {
      Flush();
      return results;
    }
  }

  /** The row of a band, if it has any records. */
  method BandRow(a: ChartStatsAccumulator?, chartId: int, band: Band, ghost open: seq<ChartRecord>)
    returns (row: seq<Stats>)
    requires Holds(a, chartId, band, open)
    modifies if a == null then {} else {a}
    ensures row == if Within(open, band) == [] then [] else [RowOf(chartId, band.id, Within(open, band))]
  {
    if a == null {
      return [];
    }
    var result := a.Result();
    return [result];
  }

  method RowsOf(
    accumulators: seq<ChartStatsAccumulator?>, bands: seq<Band>, chartId: int, ghost open: seq<ChartRecord>)
    returns (rows: seq<Stats>)
    requires AllHold(accumulators, chartId, bands, open)
    modifies Among(accumulators)
    ensures rows == GroupRows(bands, chartId, open)
  {
    rows := [];
    for i := 0 to |bands|
      invariant rows == GroupRows(bands[..i], chartId, open)
      invariant HoldFrom(accumulators, chartId, bands, open, i)
    {
      OneMoreBand(bands, chartId, open, i);
      var row := NextRow(accumulators, bands, chartId, open, i);
      rows := rows + row;
    }
    assert bands[..|bands|] == bands;
  }

  lemma {:induction false} OneMoreBand(bands: seq<Band>, chartId: int, records: seq<ChartRecord>, i: nat)
    requires i < |bands|
    ensures GroupRows(bands[..i + 1], chartId, records)
         == GroupRows(bands[..i], chartId, records)
            + if Within(records, bands[i]) == [] then []
              else [RowOf(chartId, bands[i].id, Within(records, bands[i]))]
  {
    assert bands[..i + 1][..i] == bands[..i];
  }

  /** The bands from the i-th on have not been read yet. */
  ghost predicate HoldFrom(
    accumulators: seq<ChartStatsAccumulator?>, chartId: int, bands: seq<Band>, records: seq<ChartRecord>, i: nat)
    reads Among(accumulators)
  {
    |accumulators| == |bands| && NotShared(accumulators)
    && forall j :: i <= j < |accumulators| ==> Holds(accumulators[j], chartId, bands[j], records)
  }

  method NextRow(
    accumulators: seq<ChartStatsAccumulator?>, bands: seq<Band>, chartId: int, ghost open: seq<ChartRecord>, i: nat)
    returns (row: seq<Stats>)
    requires i < |bands| && HoldFrom(accumulators, chartId, bands, open, i)
    modifies Among(accumulators)
    ensures HoldFrom(accumulators, chartId, bands, open, i + 1)
    ensures row == if Within(open, bands[i]) == [] then [] else [RowOf(chartId, bands[i].id, Within(open, bands[i]))]
  {
    row := BandRow(accumulators[i], chartId, bands[i], open);
  }

  /** What a stream of records leaves behind. */
  function StreamOf(records: seq<ChartRecord>): Stream {
    if records == [] then Stream([], [])
    else Streamed(StreamOf(records[..|records| - 1]), records[|records| - 1])
  }

  /** Streams all records and takes the results. */
  method Calculate(ratingBands: seq<Band>, records: seq<ChartRecord>) returns (rows: seq<Stats>, recordCount: nat)
    ensures rows == Rows(ratingBands, Flushed(StreamOf(records)).closed) && recordCount == |records|
  {
    var calculator := new ChartStatsCalculator(ratingBands);
    for i := 0 to |records|
      invariant calculator.Valid() && calculator.ratingBands == ratingBands
      invariant fresh(calculator) && fresh(calculator.Owned())
      invariant calculator.stream == StreamOf(records[..i]) && calculator.recordCount == i
    {
      assert records[..i + 1][..i] == records[..i];
      calculator.Add(records[i]);
    }
    assert records[..|records|] == records;
    recordCount := calculator.recordCount;
    rows := calculator.Results();
  }
}
