/** Rows of the chart statistics, defined on the records they cover. */
module ChartStatsRows {
  import opened Common

  datatype ChartRecord = ChartRecord(chartId: int, rating: real, score: int, clearLampId: int, comboLampId: int)

  /** The lower end belongs to the band, the upper end does not; a missing end is open. */
  datatype Band = Band(id: int, min: Option<real>, max: Option<real>) {
    predicate Contains(rating: real) {
      !(min.Some? && rating < min.value) && (max.None? || rating < max.value)
    }
  }

  const SCORE_MAX: int := 1_010_000
  const SCORE_SSSP: int := 1_009_000
  const SCORE_SSS: int := 1_007_500
  const SCORE_SSP: int := 1_005_000
  const SCORE_SS: int := 1_000_000
  const SCORE_SP: int := 990_000
  const SCORE_S: int := 975_000

  /** Everything that is counted. */
  datatype Kind =
    | Players
    | Failed | Clear | Hard | Brave | Absolute | Catastrophy
    | NoCombo | FullCombo | AllJustice | AllJusticeCritical
    | RankMax | RankSSSP | RankSSS | RankSSP | RankSS | RankSP | RankS | RankAAAL

  predicate Cleared(r: ChartRecord) { r.clearLampId != 1 }

  predicate Is(r: ChartRecord, kind: Kind) {
    match kind
    case Players => true
    case Failed => r.clearLampId == 1
    case Clear => r.clearLampId == 2
    case Hard => r.clearLampId == 3
    case Brave => r.clearLampId == 4
    case Absolute => r.clearLampId == 5
    case Catastrophy => r.clearLampId == 6
    case NoCombo => r.comboLampId == 1
    case FullCombo => r.comboLampId == 2
    case AllJustice => r.comboLampId == 3 && r.score != SCORE_MAX
    case AllJusticeCritical => r.comboLampId == 3 && r.score == SCORE_MAX
    case RankMax => Cleared(r) && SCORE_MAX <= r.score
    case RankSSSP => Cleared(r) && SCORE_SSSP <= r.score < SCORE_MAX
    case RankSSS => Cleared(r) && SCORE_SSS <= r.score < SCORE_SSSP
    case RankSSP => Cleared(r) && SCORE_SSP <= r.score < SCORE_SSS
    case RankSS => Cleared(r) && SCORE_SS <= r.score < SCORE_SSP
    case RankSP => Cleared(r) && SCORE_SP <= r.score < SCORE_SS
    case RankS => Cleared(r) && SCORE_S <= r.score < SCORE_SP
    case RankAAAL => Cleared(r) && r.score < SCORE_S
  }

  function Count(records: seq<ChartRecord>, kind: Kind): nat {
    if records == [] then 0
    else Count(records[..|records| - 1], kind) + (if Is(records[|records| - 1], kind) then 1 else 0)
  }

  datatype ClearCounts = ClearCounts(failed: nat, clear: nat, hard: nat, brave: nat, absolute: nat, catastrophy: nat)

  datatype ComboCounts = ComboCounts(none: nat, fc: nat, aj: nat, ajc: nat)

  datatype RankCounts = RankCounts(max: nat, sssp: nat, sss: nat, ssp: nat, ss: nat, sp: nat, s: nat, aaal: nat)

  datatype Stats = Stats(
    chartId: int, bandId: int, playerCount: nat, clear: ClearCounts, combo: ComboCounts, rank: RankCounts,
    averageScore: Option<real>, medianScore: Option<real>)

  function ClearOf(records: seq<ChartRecord>): ClearCounts {
    ClearCounts(Count(records, Failed), Count(records, Clear), Count(records, Hard),
                Count(records, Brave), Count(records, Absolute), Count(records, Catastrophy))
  }

  function ComboOf(records: seq<ChartRecord>): ComboCounts {
    ComboCounts(Count(records, NoCombo), Count(records, FullCombo),
                Count(records, AllJustice), Count(records, AllJusticeCritical))
  }

  function RankOf(records: seq<ChartRecord>): RankCounts {
    RankCounts(Count(records, RankMax), Count(records, RankSSSP), Count(records, RankSSS), Count(records, RankSSP),
               Count(records, RankSS), Count(records, RankSP), Count(records, RankS), Count(records, RankAAAL))
  }

  function ClearedScores(records: seq<ChartRecord>): seq<int> {
    if records == [] then []
    else
      ClearedScores(records[..|records| - 1])
      + (if Cleared(records[|records| - 1]) then [records[|records| - 1].score] else [])
  }

  function Total(scores: seq<int>): int {
    if scores == [] then 0 else Total(scores[..|scores| - 1]) + scores[|scores| - 1]
  }

  // ---------- the middle of a list of scores ----------

  function Insert(sorted: seq<int>, x: int): seq<int> {
    if sorted == [] || sorted[|sorted| - 1] <= x then sorted + [x]
    else Insert(sorted[..|sorted| - 1], x) + [sorted[|sorted| - 1]]
  }

  function Sorted(scores: seq<int>): (sorted: seq<int>)
    ensures |sorted| == |scores|
  {
    if scores == [] then []
    else
      InsertLength(Sorted(scores[..|scores| - 1]), scores[|scores| - 1]);
      Insert(Sorted(scores[..|scores| - 1]), scores[|scores| - 1])
  }

  lemma {:induction false} InsertLength(sorted: seq<int>, x: int)
    ensures |Insert(sorted, x)| == |sorted| + 1
  {
    if sorted != [] && sorted[|sorted| - 1] > x {
      InsertLength(sorted[..|sorted| - 1], x);
    }
  }

  /** The middle score, or the mean of the two middle ones. */
  function Middle(sorted: seq<int>): real
    requires sorted != []
  {
    var n := |sorted|;
    if n % 2 == 1 then sorted[n / 2] as real
    else (sorted[n / 2 - 1] as real + sorted[n / 2] as real) / 2.0
  }

  function Median(scores: seq<int>): real
    requires scores != []
  {
    Middle(Sorted(scores))
  }

  function Average(scores: seq<int>): real
    requires scores != []
  {
    Total(scores) as real / |scores| as real
  }

  /** The row of a chart and a band over the records it covers. */
  function RowOf(chartId: int, bandId: int, records: seq<ChartRecord>): Stats {
    var scores := ClearedScores(records);
    Stats(chartId, bandId, |records|, ClearOf(records), ComboOf(records), RankOf(records),
          if scores == [] then None else Some(Average(scores)),
          if scores == [] then None else Some(Median(scores)))
  }

  // ---------- the rows of a list of records ----------

  function Within(records: seq<ChartRecord>, band: Band): seq<ChartRecord> {
    if records == [] then []
    else
      Within(records[..|records| - 1], band)
      + (if band.Contains(records[|records| - 1].rating) then [records[|records| - 1]] else [])
  }

  /** The rows of one chart, in the order of the bands; bands without records have none. */
  function GroupRows(bands: seq<Band>, chartId: int, records: seq<ChartRecord>): seq<Stats> {
    if bands == [] then []
    else
      var band := bands[|bands| - 1];
      GroupRows(bands[..|bands| - 1], chartId, records)
      + (if Within(records, band) == [] then [] else [RowOf(chartId, band.id, Within(records, band))])
  }

  /** The rows of a list of groups, each the records of one chart. */
  function Rows(bands: seq<Band>, groups: seq<seq<ChartRecord>>): seq<Stats> {
    if groups == [] then []
    else
      var group := groups[|groups| - 1];
      Rows(bands, groups[..|groups| - 1])
      + (if group == [] then [] else GroupRows(bands, group[0].chartId, group))
  }

  lemma {:induction false} CountSnoc(records: seq<ChartRecord>, r: ChartRecord, kind: Kind)
    ensures Count(records + [r], kind) == Count(records, kind) + (if Is(r, kind) then 1 else 0)
  {
  }

  function ClearAfter(c: ClearCounts, clearLampId: int): ClearCounts {
    match clearLampId
    case 1 => c.(failed := c.failed + 1)
    case 2 => c.(clear := c.clear + 1)
    case 3 => c.(hard := c.hard + 1)
    case 4 => c.(brave := c.brave + 1)
    case 5 => c.(absolute := c.absolute + 1)
    case 6 => c.(catastrophy := c.catastrophy + 1)
    case _ => c
  }

  lemma {:induction false} ClearSnoc(records: seq<ChartRecord>, r: ChartRecord)
    ensures ClearOf(records + [r]) == ClearAfter(ClearOf(records), r.clearLampId)
  {
    CountSnoc(records, r, Failed);
    CountSnoc(records, r, Clear);
    CountSnoc(records, r, Hard);
    CountSnoc(records, r, Brave);
    CountSnoc(records, r, Absolute);
    CountSnoc(records, r, Catastrophy);
  }

  function ComboAfter(c: ComboCounts, comboLampId: int, score: int): ComboCounts {
    match comboLampId
    case 1 => c.(none := c.none + 1)
    case 2 => c.(fc := c.fc + 1)
    case 3 => if score == SCORE_MAX then c.(ajc := c.ajc + 1) else c.(aj := c.aj + 1)
    case _ => c
  }

  lemma {:induction false} ComboSnoc(records: seq<ChartRecord>, r: ChartRecord)
    ensures ComboOf(records + [r]) == ComboAfter(ComboOf(records), r.comboLampId, r.score)
  {
    CountSnoc(records, r, NoCombo);
    CountSnoc(records, r, FullCombo);
    CountSnoc(records, r, AllJustice);
    CountSnoc(records, r, AllJusticeCritical);
  }

  function RankKind(score: int): Kind {
    if score >= SCORE_MAX then RankMax
    else if score >= SCORE_SSSP then RankSSSP
    else if score >= SCORE_SSS then RankSSS
    else if score >= SCORE_SSP then RankSSP
    else if score >= SCORE_SS then RankSS
    else if score >= SCORE_SP then RankSP
    else if score >= SCORE_S then RankS
    else RankAAAL
  }

  /** One more record of the given kind. */
  function Bumped(c: RankCounts, kind: Kind): RankCounts {
    RankCounts(c.max + One(kind == RankMax), c.sssp + One(kind == RankSSSP), c.sss + One(kind == RankSSS),
               c.ssp + One(kind == RankSSP), c.ss + One(kind == RankSS), c.sp + One(kind == RankSP),
               c.s + One(kind == RankS), c.aaal + One(kind == RankAAAL))
  }

  function One(b: bool): nat { if b then 1 else 0 }

  function RankAfter(c: RankCounts, score: int): RankCounts { Bumped(c, RankKind(score)) }

  predicate IsRank(kind: Kind) {
    kind in {RankMax, RankSSSP, RankSSS, RankSSP, RankSS, RankSP, RankS, RankAAAL}
  }

  lemma {:induction false} OneRank(r: ChartRecord, kind: Kind)
    requires IsRank(kind)
    ensures Is(r, kind) <==> Cleared(r) && kind == RankKind(r.score)
  {
  }

  lemma {:induction false} RankCountSnoc(records: seq<ChartRecord>, r: ChartRecord, kind: Kind)
    requires IsRank(kind)
    ensures Count(records + [r], kind)
         == Count(records, kind) + (if Cleared(r) && kind == RankKind(r.score) then 1 else 0)
  {
    CountSnoc(records, r, kind);
    OneRank(r, kind);
  }

  lemma {:induction false} UpperRanksSnoc(records: seq<ChartRecord>, r: ChartRecord)
    requires Cleared(r)
    ensures var c, d := RankAfter(RankOf(records), r.score), RankOf(records + [r]);
      d.max == c.max && d.sssp == c.sssp && d.sss == c.sss && d.ssp == c.ssp
  {
    RankCountSnoc(records, r, RankMax);
    RankCountSnoc(records, r, RankSSSP);
    RankCountSnoc(records, r, RankSSS);
    RankCountSnoc(records, r, RankSSP);
  }

  lemma {:induction false} LowerRanksSnoc(records: seq<ChartRecord>, r: ChartRecord)
    requires Cleared(r)
    ensures var c, d := RankAfter(RankOf(records), r.score), RankOf(records + [r]);
      d.ss == c.ss && d.sp == c.sp && d.s == c.s && d.aaal == c.aaal
  {
    RankCountSnoc(records, r, RankSS);
    RankCountSnoc(records, r, RankSP);
    RankCountSnoc(records, r, RankS);
    RankCountSnoc(records, r, RankAAAL);
  }

  lemma {:induction false} RankSnoc(records: seq<ChartRecord>, r: ChartRecord)
    ensures RankOf(records + [r]) == if Cleared(r) then RankAfter(RankOf(records), r.score) else RankOf(records)
  {
    if Cleared(r) {
      UpperRanksSnoc(records, r);
      LowerRanksSnoc(records, r);
    } else {
      forall kind | IsRank(kind) ensures Count(records + [r], kind) == Count(records, kind) {
        RankCountSnoc(records, r, kind);
      }
    }
  }

  lemma {:induction false} ScoresSnoc(records: seq<ChartRecord>, r: ChartRecord)
    ensures ClearedScores(records + [r]) == ClearedScores(records) + (if Cleared(r) then [r.score] else [])
  {
  }

  lemma {:induction false} WithinSnoc(records: seq<ChartRecord>, r: ChartRecord, band: Band)
    ensures Within(records + [r], band) == Within(records, band) + (if band.Contains(r.rating) then [r] else [])
  {
  }

  lemma {:induction false} TotalSnoc(scores: seq<int>, x: int)
    ensures Total(scores + [x]) == Total(scores) + x
  {
  }
}
