/** The choice of rating slots from one pool of records, and the official rating averages. */
module RatingSlots {

  const SSS_PLUS: nat := 1_009_000
  const PLAYER_RATING_SLOTS: nat := 50

  /** The chart constant counts tenths. */
  datatype RatingRecord = RatingRecord(chartId: int, score: nat, chartConst: int, officialIndex: nat)

  function Max(a: int, b: int): int { if a < b then b else a }

  function Min(a: int, b: int): int { if a < b then a else b }

  /** The rating of a single score in hundredths. */
  function SingleRating(score: nat, chartConst: int): nat {
    var base := chartConst * 10;
    var diff := chartConst - 50;
    Max(0,
      if score >= 1_009_000 then base + 215
      else if score >= 1_007_500 then base + 200 + (score - 1_007_500) / 100
      else if score >= 1_005_000 then base + 150 + (score - 1_005_000) / 50
      else if score >= 1_000_000 then base + 100 + (score - 1_000_000) / 100
      else if score >= 990_000 then base + 60 + (score - 990_000) / 250
      else if score >= 975_000 then base + (score - 975_000) / 250
      else if score >= 950_000 then base - 167 + (score - 950_000) / 150
      else if score >= 925_000 then base - 334 + (score - 925_000) / 150
      else if score >= 900_000 then base - 500 + (score - 900_000) / 150
      else if score >= 800_000 then
        if diff > 0 then diff * 5 + (score - 800_000) * diff / 20_000 else 0
      else if score >= 500_000 then
        if diff > 0 then (score - 500_000) * diff / 60_000 else 0
      else 0)
  }

  lemma {:induction false} LowerBands(points: nat, diff: nat)
    ensures 0 <= points * diff / 20_000 <= (points + 1) * diff / 20_000
    ensures 0 <= points * diff / 60_000 <= (points + 1) * diff / 60_000
    ensures points < 100_000 ==> points * diff / 20_000 <= diff * 5
    ensures points < 300_000 ==> points * diff / 60_000 <= diff * 5
  {
    assert points * diff <= (points + 1) * diff == points * diff + diff;
    if points < 100_000 {
      assert points * diff <= 100_000 * diff;
    }
    if points < 300_000 {
      assert points * diff <= 300_000 * diff;
    }
  }

  lemma {:induction false} OnePointMoreAbove(score: nat, chartConst: int)
    requires score >= 900_000
    ensures SingleRating(score, chartConst) <= SingleRating(score + 1, chartConst)
  {
  }

  lemma {:induction false} OnePointMore(score: nat, chartConst: int)
    ensures SingleRating(score, chartConst) <= SingleRating(score + 1, chartConst)
  {
    if score >= 900_000 {
      OnePointMoreAbove(score, chartConst);
    } else if chartConst > 50 {
      if 500_000 <= score < 800_000 {
        LowerBands(score - 500_000, chartConst - 50);
      } else if 800_000 <= score < 900_000 {
        LowerBands(score - 800_000, chartConst - 50);
      }
    }
  }

  lemma {:induction false} RatingGrows(low: nat, high: nat, chartConst: int)
    requires low <= high
    ensures SingleRating(low, chartConst) <= SingleRating(high, chartConst)
    decreases high - low
  {
    if low < high {
      OnePointMore(low, chartConst);
      RatingGrows(low + 1, high, chartConst);
    }
  }

  /** A higher score never rates lower, and from SSS+ on the rating is capped. */
  lemma {:induction false} RatingIsMonotone(low: nat, high: nat, chartConst: int)
    requires low <= high
    ensures SingleRating(low, chartConst) <= SingleRating(high, chartConst)
    ensures SingleRating(high, chartConst) <= SingleRating(SSS_PLUS, chartConst)
  {
    RatingGrows(low, high, chartConst);
    if high <= SSS_PLUS {
      RatingGrows(high, SSS_PLUS, chartConst);
    }
  }

  function AtLeastZero(rating: int): nat { if rating < 0 then 0 else rating }

  lemma {:induction false} Quotient(a: int, d: int, x: int)
    requires d > 0 && d * x <= a < d * (x + 1)
    ensures a / d == x
  {
    assert d * (a / d) <= a < d * (a / d + 1);
  }

  /** From 900,000 points on, a border's rating is the constant plus a fixed number of hundredths,
      and a further hundredth comes with every so many points above it. */
  lemma {:induction false} RatingInUpperBands(score: nat, chartConst: int, x: int)
    ensures score >= 1_009_000 ==> SingleRating(score, chartConst) == AtLeastZero(chartConst * 10 + 215)
    ensures 1_007_500 <= score < 1_009_000 && 100 * x <= score - 1_007_500 < 100 * (x + 1) ==>
      SingleRating(score, chartConst) == AtLeastZero(chartConst * 10 + 200 + x)
    ensures 1_005_000 <= score < 1_007_500 && 50 * x <= score - 1_005_000 < 50 * (x + 1) ==>
      SingleRating(score, chartConst) == AtLeastZero(chartConst * 10 + 150 + x)
    ensures 1_000_000 <= score < 1_005_000 && 100 * x <= score - 1_000_000 < 100 * (x + 1) ==>
      SingleRating(score, chartConst) == AtLeastZero(chartConst * 10 + 100 + x)
    ensures 990_000 <= score < 1_000_000 && 250 * x <= score - 990_000 < 250 * (x + 1) ==>
      SingleRating(score, chartConst) == AtLeastZero(chartConst * 10 + 60 + x)
    ensures 975_000 <= score < 990_000 && 250 * x <= score - 975_000 < 250 * (x + 1) ==>
      SingleRating(score, chartConst) == AtLeastZero(chartConst * 10 + x)
    ensures 950_000 <= score < 975_000 && 150 * x <= score - 950_000 < 150 * (x + 1) ==>
      SingleRating(score, chartConst) == AtLeastZero(chartConst * 10 - 167 + x)
    ensures 925_000 <= score < 950_000 && 150 * x <= score - 925_000 < 150 * (x + 1) ==>
      SingleRating(score, chartConst) == AtLeastZero(chartConst * 10 - 334 + x)
    ensures 900_000 <= score < 925_000 && 150 * x <= score - 900_000 < 150 * (x + 1) ==>
      SingleRating(score, chartConst) == AtLeastZero(chartConst * 10 - 500 + x)
  {
  }

  /** Below, the rating grows in proportion to what the constant exceeds 5.0 by: from nothing at
      500,000 points, and from half of it at 800,000. */
  lemma {:induction false} RatingInLowerBands(score: nat, chartConst: int, x: int)
    ensures 800_000 <= score < 900_000 && chartConst > 50
            && 20_000 * x <= (score - 800_000) * (chartConst - 50) < 20_000 * (x + 1) ==>
      SingleRating(score, chartConst) == (chartConst - 50) * 5 + x
    ensures 500_000 <= score < 800_000 && chartConst > 50
            && 60_000 * x <= (score - 500_000) * (chartConst - 50) < 60_000 * (x + 1) ==>
      SingleRating(score, chartConst) == x
    ensures score < 500_000 || (score < 900_000 && chartConst <= 50) ==> SingleRating(score, chartConst) == 0
  {
    var diff := chartConst - 50;
    if 800_000 <= score < 900_000 && diff > 0 {
      LowerBands(score - 800_000, diff);
      if 20_000 * x <= (score - 800_000) * diff < 20_000 * (x + 1) {
        Quotient((score - 800_000) * diff, 20_000, x);
      }
    } else if 500_000 <= score < 800_000 && diff > 0 {
      LowerBands(score - 500_000, diff);
      if 60_000 * x <= (score - 500_000) * diff < 60_000 * (x + 1) {
        Quotient((score - 500_000) * diff, 60_000, x);
      }
    }
  }

  // ---------- the order of records ----------

  function Rating(record: RatingRecord): nat { SingleRating(record.score, record.chartConst) }

  /** Better ratings first; then higher constants, lower scores and lower official indexes. */
  predicate MayPrecede(a: RatingRecord, b: RatingRecord) {
    Rating(a) > Rating(b)
    || (Rating(a) == Rating(b)
        && (a.chartConst > b.chartConst
            || (a.chartConst == b.chartConst
                && (a.score < b.score || (a.score == b.score && a.officialIndex <= b.officialIndex)))))
  }

  ghost predicate Ordered(records: seq<RatingRecord>) {
    forall i, j :: 0 <= i < j < |records| ==> MayPrecede(records[i], records[j])
  }

  /** Sorting is not stable: all that is known is that it orders its input. */
  type Sort = seq<RatingRecord> -> seq<RatingRecord>

  ghost predicate IsSort(sort: Sort) {
    forall records: seq<RatingRecord> ::
      multiset(sort(records)) == multiset(records) && Ordered(sort(records))
  }

  function Sum(records: seq<RatingRecord>): nat {
    if records == [] then 0 else Sum(records[..|records| - 1]) + Rating(records[|records| - 1])
  }

  // ---------- the slots ----------

  datatype RatingSlots = RatingSlots(main: seq<RatingRecord>, candidates: seq<RatingRecord>)

  /** Records that a better score would bring into the main slots. */
  function Improvable(records: seq<RatingRecord>, threshold: nat): seq<RatingRecord> {
    if records == [] then []
    else
      var last := records[|records| - 1];
      Improvable(records[..|records| - 1], threshold)
      + (if last.score < SSS_PLUS && SingleRating(SSS_PLUS, last.chartConst) > threshold then [last] else [])
  }

  function Slots(sort: Sort, records: seq<RatingRecord>, mainLimit: nat, candidateLimit: nat): RatingSlots
    requires mainLimit > 0
  {
    var sorted := sort(records);
    if |sorted| < mainLimit then RatingSlots(sorted, [])
    else
      var improvable := sort(Improvable(sorted[mainLimit..], Rating(sorted[mainLimit - 1])));
      RatingSlots(sorted[..mainLimit], improvable[..Min(candidateLimit, |improvable|)])
  }

  method BuildRatingSlots(sort: Sort, records: seq<RatingRecord>, mainLimit: nat, candidateLimit: nat)
    returns (slots: RatingSlots)
    requires mainLimit > 0
    ensures slots == Slots(sort, records, mainLimit, candidateLimit)
  {
    var sorted := sort(records);
    var mainCount := Min(mainLimit, |sorted|);
    if mainCount < mainLimit {
      assert sorted[..mainCount] == sorted;
      return RatingSlots(sorted[..mainCount], []);
    }
    var candidates: seq<RatingRecord> := [];
    var threshold := Rating(sorted[mainCount - 1]);
    var rest := sorted[mainCount..];
    for i := 0 to |rest|
      invariant candidates == Improvable(rest[..i], threshold)
    {
      assert rest[..i + 1][..i] == rest[..i];
      if rest[i].score >= SSS_PLUS {
        continue;
      }
      if SingleRating(SSS_PLUS, rest[i].chartConst) > threshold {
        candidates := candidates + [rest[i]];
      }
    }
    assert rest[..|rest|] == rest;
    candidates := sort(candidates);
    return RatingSlots(sorted[..mainCount], candidates[..Min(candidateLimit, |candidates|)]);
  }

  lemma {:induction false} SortedLength(sort: Sort, records: seq<RatingRecord>)
    requires IsSort(sort)
    ensures |sort(records)| == |records|
  {
    assert |multiset(sort(records))| == |multiset(records)|;
  }

  lemma {:induction false} ImprovableIsPart(records: seq<RatingRecord>, threshold: nat)
    ensures multiset(Improvable(records, threshold)) <= multiset(records)
  {
    if records != [] {
      var n := |records| - 1;
      assert records == records[..n] + [records[n]];
      ImprovableIsPart(records[..n], threshold);
    }
  }

  lemma {:induction false} PrefixIsPart(records: seq<RatingRecord>, n: nat)
    requires n <= |records|
    ensures multiset(records[..n]) <= multiset(records)
  {
    assert records == records[..n] + records[n..];
  }

  lemma {:induction false} CandidatesArePart(sort: Sort, rest: seq<RatingRecord>, threshold: nat, limit: nat)
    requires IsSort(sort)
    ensures var improvable := sort(Improvable(rest, threshold));
      limit <= |improvable| ==> multiset(improvable[..limit]) <= multiset(rest)
  {
    var improvable := sort(Improvable(rest, threshold));
    ImprovableIsPart(rest, threshold);
    if limit <= |improvable| {
      PrefixIsPart(improvable, limit);
    }
  }

  /** Main and candidate slots take disjoint parts of the pool, within their limits; the main
      slots are filled as far as the pool goes. */
  lemma {:induction false} SlotsArePart(sort: Sort, records: seq<RatingRecord>, mainLimit: nat, candidateLimit: nat)
    requires IsSort(sort) && mainLimit > 0
    ensures var slots := Slots(sort, records, mainLimit, candidateLimit);
      && multiset(slots.main) + multiset(slots.candidates) <= multiset(records)
      && |slots.main| == Min(mainLimit, |records|)
      && |slots.candidates| <= candidateLimit
  {
    var sorted := sort(records);
    SortedLength(sort, records);
    if |sorted| >= mainLimit {
      var rest := sorted[mainLimit..];
      var threshold := Rating(sorted[mainLimit - 1]);
      var improvable := sort(Improvable(rest, threshold));
      CandidatesArePart(sort, rest, threshold, Min(candidateLimit, |improvable|));
      assert sorted == sorted[..mainLimit] + rest;
    }
  }

  // ---------- what the main slots are for ----------

  lemma {:induction false} SumSplit(a: seq<RatingRecord>, b: seq<RatingRecord>)
    ensures Sum(a + b) == Sum(a) + Sum(b)
    decreases |b|
  {
    if b == [] {
      assert a + b == a;
    } else {
      assert (a + b)[..|a + b| - 1] == a + b[..|b| - 1];
      SumSplit(a, b[..|b| - 1]);
    }
  }

  lemma {:induction false} TakeOut(records: seq<RatingRecord>, k: nat) returns (others: seq<RatingRecord>)
    requires k < |records|
    ensures |others| == |records| - 1 && multiset(others) == multiset(records) - multiset{records[k]}
    ensures Sum(records) == Rating(records[k]) + Sum(others)
  {
    var before, after := records[..k], records[k + 1..];
    others := before + after;
    assert records == before + ([records[k]] + after);
    SumSplit(before, [records[k]] + after);
    SumSplit([records[k]], after);
    SumSplit(before, after);
    assert [records[k]][..0] == [];
  }

  /** The sum does not depend on the order. */
  lemma {:induction false} SumOfPermutation(a: seq<RatingRecord>, b: seq<RatingRecord>)
    requires multiset(a) == multiset(b)
    ensures Sum(a) == Sum(b)
    decreases |a|
  {
    if a == [] {
      assert |multiset(b)| == 0;
    } else {
      assert a[0] in multiset(a);
      var k :| 0 <= k < |b| && b[k] == a[0];
      var rest := TakeOut(a, 0);
      var others := TakeOut(b, k);
      SumOfPermutation(rest, others);
    }
  }

  lemma {:induction false} MayPrecedeRates(sorted: seq<RatingRecord>, record: RatingRecord)
    requires Ordered(sorted) && record in sorted
    ensures Rating(record) <= Rating(sorted[0])
  {
  }

  /** Among the chosen records there is one that leaves the others within the rest of the pool
      when the best one is taken out of the pool. */
  lemma {:induction false} GiveUpForBest(
      sorted: seq<RatingRecord>, chosen: seq<RatingRecord>) returns (others: seq<RatingRecord>)
    requires Ordered(sorted) && multiset(chosen) <= multiset(sorted) && chosen != []
    ensures sorted != [] && |others| == |chosen| - 1 && multiset(others) <= multiset(sorted[1..])
    ensures Sum(chosen) <= Rating(sorted[0]) + Sum(others)
  {
    assert chosen[0] in multiset(sorted);
    var best := sorted[0];
    var k := if best in chosen then (var j :| 0 <= j < |chosen| && chosen[j] == best; j) else 0;
    assert chosen[k] in multiset(sorted);
    MayPrecedeRates(sorted, chosen[k]);
    others := TakeOut(chosen, k);
    assert sorted == [best] + sorted[1..];
    assert multiset(sorted) == multiset{best} + multiset(sorted[1..]);
  }

  lemma {:induction false} SumOfFirst(records: seq<RatingRecord>)
    requires records != []
    ensures Sum(records) == Rating(records[0]) + Sum(records[1..])
  {
    var first := [records[0]];
    assert records == first + records[1..];
    SumSplit(first, records[1..]);
    assert first[..0] == [];
  }

  lemma {:induction false} FirstOnesSumMost(sorted: seq<RatingRecord>, chosen: seq<RatingRecord>, limit: nat)
    requires Ordered(sorted) && multiset(chosen) <= multiset(sorted) && |chosen| <= limit
    ensures Sum(chosen) <= Sum(sorted[..Min(limit, |sorted|)])
    decreases limit
  {
    if chosen != [] {
      var others := GiveUpForBest(sorted, chosen);
      FirstOnesSumMost(sorted[1..], others, limit - 1);
      var m := Min(limit, |sorted|);
      SumOfFirst(sorted[..m]);
      assert sorted[..m][1..] == sorted[1..][..m - 1];
    }
  }

  /** No other choice of that many records from the pool has a higher rating sum. */
  lemma {:induction false} MainSlotsSumMost(
    sort: Sort, records: seq<RatingRecord>, mainLimit: nat, candidateLimit: nat, chosen: seq<RatingRecord>)
    requires IsSort(sort) && mainLimit > 0
    requires multiset(chosen) <= multiset(records) && |chosen| <= mainLimit
    ensures Sum(chosen) <= Sum(Slots(sort, records, mainLimit, candidateLimit).main)
  {
    var sorted := sort(records);
    FirstOnesSumMost(sorted, chosen, mainLimit);
    if |sorted| < mainLimit {
      assert sorted[..|sorted|] == sorted;
    }
  }

  lemma {:induction false} ImprovableIff(records: seq<RatingRecord>, threshold: nat, record: RatingRecord)
    ensures record in Improvable(records, threshold) <==>
      record in records && record.score < SSS_PLUS && SingleRating(SSS_PLUS, record.chartConst) > threshold
  {
    if records != [] {
      var n := |records| - 1;
      assert records == records[..n] + [records[n]];
      ImprovableIff(records[..n], threshold, record);
    }
  }

  /** The records considered as candidates are exactly those outside the main slots that some
      score would lift above the weakest main slot: skipping those at SSS+ or better and trying
      only the SSS+ score loses none. */
  lemma {:induction false} CandidatesAreTheLiftable(
      sort: Sort, records: seq<RatingRecord>, mainLimit: nat, record: RatingRecord)
    requires IsSort(sort) && 0 < mainLimit <= |records|
    requires |sort(records)| == |records| && record in sort(records)[mainLimit..]
    ensures var threshold := Rating(sort(records)[mainLimit - 1]);
      record in Improvable(sort(records)[mainLimit..], threshold)
      <==> exists score: nat :: SingleRating(score, record.chartConst) > threshold
  {
    var sorted := sort(records);
    var threshold := Rating(sorted[mainLimit - 1]);
    ImprovableIff(sorted[mainLimit..], threshold, record);
    var k :| 0 <= k < |sorted| - mainLimit && sorted[mainLimit..][k] == record;
    assert MayPrecede(sorted[mainLimit - 1], sorted[mainLimit + k]);
    assert Rating(record) <= threshold;
    forall score: nat ensures SingleRating(score, record.chartConst) <= SingleRating(SSS_PLUS, record.chartConst) {
      RatingIsMonotone(score, score, record.chartConst);
    }
  }

  // ---------- the averages ----------

  /** Averages in ten-thousandths. */
  datatype RatingStats = RatingStats(player: nat, best: nat, new_: nat)

  function ScaledAverage(sum: nat, count: nat): nat {
    if count == 0 then 0 else sum * 10_000 / 100 / count
  }

  function OfficialStats(best: seq<RatingRecord>, new_: seq<RatingRecord>): RatingStats {
    RatingStats(
      ScaledAverage(Sum(best) + Sum(new_), PLAYER_RATING_SLOTS),
      ScaledAverage(Sum(best), |best|),
      ScaledAverage(Sum(new_), |new_|))
  }

  method SumRatings(records: seq<RatingRecord>) returns (sum: nat)
    ensures sum == Sum(records)
  {
    sum := 0;
    for i := 0 to |records|
      invariant sum == Sum(records[..i])
    {
      assert records[..i + 1][..i] == records[..i];
      sum := sum + Rating(records[i]);
    }
    assert records[..|records|] == records;
  }

  method AggregateOfficialRating(best: seq<RatingRecord>, new_: seq<RatingRecord>) returns (stats: RatingStats)
    ensures stats == OfficialStats(best, new_)
  {
    var bestSum := SumRatings(best);
    var newSum := SumRatings(new_);
    return RatingStats(
      ScaledAverage(bestSum + newSum, PLAYER_RATING_SLOTS),
      ScaledAverage(bestSum, |best|),
      ScaledAverage(newSum, |new_|));
  }

  /** The averages depend on which records are in the slots, not on their order. */
  lemma {:induction false} StatsOfPermutation(
    best: seq<RatingRecord>, new_: seq<RatingRecord>, best': seq<RatingRecord>, new': seq<RatingRecord>)
    requires multiset(best) == multiset(best') && multiset(new_) == multiset(new')
    ensures OfficialStats(best, new_) == OfficialStats(best', new')
  {
    SumOfPermutation(best, best');
    SumOfPermutation(new_, new');
    assert |multiset(best)| == |multiset(best')| && |multiset(new_)| == |multiset(new')|;
  }
}
