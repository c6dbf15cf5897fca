/** The official metrics of a player and the history of their changes. */
module MetricHistory {
  import opened Common

  /** Times count microseconds from the zero time. */
  const SECOND: int := 1_000_000

  const MAX_RATING: int := 9_999
  const MAX_OVERPOWER: int := 99_999_999
  const MAX_PERCENT: int := 10_000
  const MAX_ENTRIES: nat := 500

  /** Metrics count hundredths. */
  datatype Metrics = Metrics(rating: int, overpower: int, percent: int)

  /** Metrics as they are stored; the percentage may be missing from early records. */
  datatype StoredMetrics = StoredMetrics(rating: int, overpower: int, percent: Option<int>)

  datatype HistoryEntry = HistoryEntry(metrics: StoredMetrics, collectedAt: int)

  datatype MetricError = Stale | ConflictingTimestamp | HistoryTimestampTaken

  predicate Changed(current: StoredMetrics, new_: Metrics) {
    current.rating != new_.rating
    || current.overpower != new_.overpower
    || current.percent.None?
    || current.percent.value != new_.percent
  }

  function StoredOf(m: Metrics): StoredMetrics { StoredMetrics(m.rating, m.overpower, Some(m.percent)) }

  /** Why metrics collected at that time are refused, if they are. */
  function Refusal(current: StoredMetrics, collectedAt: Option<int>, new_: Metrics, at: int): Option<MetricError> {
    if collectedAt.Some? && at < collectedAt.value then Some(Stale)
    else if collectedAt.Some? && at == collectedAt.value && Changed(current, new_) then Some(ConflictingTimestamp)
    else None
  }

  class Player {
    var metrics: StoredMetrics
    var dataCollectedAt: Option<int>
    var updatedAt: int
    var metricHistoryToAppend: Option<HistoryEntry>

    constructor (metrics: StoredMetrics, dataCollectedAt: Option<int>, updatedAt: int)
      ensures this.metrics == metrics && this.dataCollectedAt == dataCollectedAt && this.updatedAt == updatedAt
      ensures metricHistoryToAppend == None
    {
      this.metrics := metrics;
      this.dataCollectedAt := dataCollectedAt;
      this.updatedAt := updatedAt;
      this.metricHistoryToAppend := None;
    }

    /** Takes over newer metrics and remembers the ones they replace; refused without a change
        when older, or different at the same time. */
    method ChangeOfficialMetrics(new_: Metrics, collectedAt: int) returns (error: Option<MetricError>)
      modifies this
      ensures error == Refusal(old(metrics), old(dataCollectedAt), new_, collectedAt)
      ensures error == Some(Stale) <==>
        old(dataCollectedAt).Some? && collectedAt < old(dataCollectedAt).value
      ensures error == Some(ConflictingTimestamp) <==>
        old(dataCollectedAt) == Some(collectedAt)
        && old(metrics) != StoredMetrics(new_.rating, new_.overpower, Some(new_.percent))
      ensures error != Some(HistoryTimestampTaken)
      ensures error.Some? ==> unchanged(this)
      ensures error.None? ==>
        && metrics == StoredMetrics(new_.rating, new_.overpower, Some(new_.percent))
        && dataCollectedAt == Some(collectedAt) && updatedAt == collectedAt
        && metricHistoryToAppend ==
             if old(dataCollectedAt).Some? && old(metrics) != metrics
             then Some(HistoryEntry(old(metrics), old(dataCollectedAt).value))
             else old(metricHistoryToAppend)
    {
      if dataCollectedAt.Some? {
        if collectedAt < dataCollectedAt.value {
          return Some(Stale);
        }
        if collectedAt == dataCollectedAt.value && Changed(metrics, new_) {
          return Some(ConflictingTimestamp);
        }
        if Changed(metrics, new_) {
          metricHistoryToAppend := Some(HistoryEntry(metrics, dataCollectedAt.value));
        }
      }
      metrics := StoredOf(new_);
      dataCollectedAt := Some(collectedAt);
      updatedAt := collectedAt;
      return None;
    }
  }

  // ---------- what is stored ----------

  /** The player row and the history rows, in ascending order of their times. */
  datatype State = State(metrics: StoredMetrics, collectedAt: Option<int>, history: seq<HistoryEntry>)

  /** What the time column keeps of a time. */
  type Column = int -> int

  predicate Whole(t: int) { t % SECOND == 0 }

  /** The column keeps whole seconds as they are and stores nothing else. */
  ghost predicate KeepsSeconds(column: Column) {
    forall t: int :: Whole(column(t)) && (Whole(t) ==> column(t) == t)
  }

  /** And it stores no time before an earlier one: truncating and rounding columns do. */
  ghost predicate Orderly(column: Column) {
    KeepsSeconds(column) && forall t: int, u: int :: t <= u ==> column(t) <= column(u)
  }

  ghost predicate Ascending(history: seq<HistoryEntry>) {
    forall i, j :: 0 <= i < j < |history| ==> history[i].collectedAt < history[j].collectedAt
  }

  /** The newest entries are kept. */
  function Pruned(history: seq<HistoryEntry>): (newest: seq<HistoryEntry>)
    ensures |history| <= 500 ==> newest == history
    ensures |history| > 500 ==> |newest| == 500 && newest == history[|history| - 500..]
  {
    if |history| > MAX_ENTRIES then history[|history| - MAX_ENTRIES..] else history
  }

  /** The state after accepted metrics are saved. */
  function Saved(column: Column, s: State, new_: Metrics, at: int): State {
    State(
      StoredOf(new_), Some(column(at)),
      if s.collectedAt.Some? && Changed(s.metrics, new_)
      then Pruned(s.history + [HistoryEntry(s.metrics, s.collectedAt.value)])
      else s.history)
  }

  /** All stored times precede the current one. */
  ghost predicate Precedes(s: State) {
    forall i :: 0 <= i < |s.history| ==> s.collectedAt.Some? && s.history[i].collectedAt < s.collectedAt.value
  }

  /** Times ascend up to the current one, which is a whole second. */
  ghost predicate InOrder(s: State) {
    && Ascending(s.history)
    && (s.collectedAt.Some? ==> Whole(s.collectedAt.value))
    && forall i :: 0 <= i < |s.history| ==> s.collectedAt.Some? && s.history[i].collectedAt <= s.collectedAt.value
  }

  /** The newest history time is the current time. */
  predicate Stuck(s: State) {
    s.history != [] && s.collectedAt == Some(s.history[|s.history| - 1].collectedAt)
  }

  /** The time is the key of a history row. */
  predicate Taken(history: seq<HistoryEntry>, at: int) {
    exists i :: 0 <= i < |history| && history[i].collectedAt == at
  }

  /** The metrics are to be remembered, but a row has their time already. */
  predicate CannotRemember(s: State, new_: Metrics) {
    s.collectedAt.Some? && Changed(s.metrics, new_) && Taken(s.history, s.collectedAt.value)
  }

  function Registration(column: Column, s: State, new_: Metrics, at: int): (r: Result<State, MetricError>) {
    match Refusal(s.metrics, s.collectedAt, new_, at)
    case Some(e) => Err(e)
    case None => if CannotRemember(s, new_) then Err(HistoryTimestampTaken) else Ok(Saved(column, s, new_, at))
  }

  class PlayerRepository {
    const column: Column
    var metrics: StoredMetrics
    var collectedAt: Option<int>
    var history: seq<HistoryEntry>

    constructor (column: Column, metrics: StoredMetrics)
      requires Orderly(column)
      ensures this.column == column && Contents() == State(metrics, None, []) && Valid()
    {
      this.column := column;
      this.metrics := metrics;
      this.collectedAt := None;
      this.history := [];
    }

    ghost predicate Valid()
      reads this
    {
      Orderly(column) && InOrder(Contents())
    }

    function Contents(): State
      reads this
    {
      State(metrics, collectedAt, history)
    }

    /** Saves a player loaded from these rows and changed since; refused without a change when
        the remembered entry's time is already taken. */
    method Save(player: Player) returns (error: Option<MetricError>)
      requires Valid() && player.dataCollectedAt.Some?
      requires collectedAt.Some? ==> collectedAt.value <= player.dataCollectedAt.value
      requires collectedAt.None? ==> player.metricHistoryToAppend.None?
      requires player.metricHistoryToAppend.Some? ==>
        player.metricHistoryToAppend.value == HistoryEntry(metrics, collectedAt.value)
      modifies this
      ensures Valid()
      ensures error == if player.metricHistoryToAppend.Some? && Taken(old(history), old(collectedAt).value)
                       then Some(HistoryTimestampTaken) else None
      ensures error.Some? ==> Contents() == old(Contents())
      ensures error.None? ==>
        && metrics == player.metrics && collectedAt == Some(column(player.dataCollectedAt.value))
        && history == if player.metricHistoryToAppend.None? then old(history)
                      else Pruned(old(history) + [HistoryEntry(old(metrics), old(collectedAt).value)])
    {
      ghost var before := Contents();
      var grown := history;
      if player.metricHistoryToAppend.Some? {
        var entry := player.metricHistoryToAppend.value;
        if Taken(history, entry.collectedAt) {
          return Some(HistoryTimestampTaken);
        }
        OneMoreInOrder(before);
        grown := Pruned(history + [entry]);
      }
      LaterInOrder(column, before, grown, player.metrics, player.dataCollectedAt.value);
      history := grown;
      metrics := player.metrics;
      collectedAt := Some(column(player.dataCollectedAt.value));
      return None;
    }

    /** Loads the player, changes the metrics and saves it. */
    method EnsurePlayer(new_: Metrics, updatedAt: int) returns (error: Option<MetricError>)
      requires Valid()
      modifies this
      ensures Valid()
      ensures error.Some? ==>
        Registration(column, old(Contents()), new_, updatedAt) == Err(error.value) && Contents() == old(Contents())
      ensures error.None? ==>
        Registration(column, old(Contents()), new_, updatedAt) == Ok(Contents())
    {
      var player := new Player(metrics, collectedAt, 0);
      error := player.ChangeOfficialMetrics(new_, updatedAt);
      if error.Some? {
        return;
      }
      error := Save(player);
    }
  }

  // ---------- times in order ----------

  lemma {:induction false} PrunedIs(history: seq<HistoryEntry>)
    ensures |Pruned(history)| <= |history| && |Pruned(history)| <= MAX_ENTRIES
    ensures var cut := |history| - |Pruned(history)|;
      forall i :: 0 <= i < |Pruned(history)| ==> Pruned(history)[i] == history[cut + i]
  {
  }

  /** A remembered entry whose time is free comes after all others. */
  lemma {:induction false} OneMoreInOrder(s: State)
    requires InOrder(s) && s.collectedAt.Some? && !Taken(s.history, s.collectedAt.value)
    ensures InOrder(s.(history := Pruned(s.history + [HistoryEntry(s.metrics, s.collectedAt.value)])))
  {
    PrunedIs(s.history + [HistoryEntry(s.metrics, s.collectedAt.value)]);
  }

  /** Later metrics keep the order, at any times. */
  lemma {:induction false} LaterInOrder(
    column: Column, s: State, history: seq<HistoryEntry>, metrics: StoredMetrics, at: int)
    requires Orderly(column) && InOrder(s) && InOrder(s.(history := history))
    requires s.collectedAt.Some? ==> s.collectedAt.value <= at
    ensures InOrder(State(metrics, Some(column(at)), history))
  {
    if s.collectedAt.Some? {
      assert column(s.collectedAt.value) == s.collectedAt.value <= column(at);
    }
  }

  lemma {:induction false} CallKeepsOrder(column: Column, s: State, new_: Metrics, at: int)
    requires Orderly(column) && InOrder(s) && Registration(column, s, new_, at).Ok?
    ensures InOrder(Registration(column, s, new_, at).value)
  {
    var after := Registration(column, s, new_, at).value;
    if s.collectedAt.Some? && Changed(s.metrics, new_) {
      OneMoreInOrder(s);
    }
    LaterInOrder(column, s, after.history, after.metrics, at);
  }

  /** In a history in order the newest time is the only one that can be taken. */
  lemma {:induction false} OnlyNewestTaken(s: State)
    requires InOrder(s) && s.collectedAt.Some?
    ensures Taken(s.history, s.collectedAt.value) <==> Stuck(s)
    ensures Stuck(s) <==> !Precedes(s)
  {
    if Stuck(s) {
      assert s.history[|s.history| - 1].collectedAt == s.collectedAt.value;
    } else if s.history != [] {
      assert s.history[|s.history| - 1].collectedAt < s.collectedAt.value;
    }
  }

  /** A change that is neither stale nor at the current time is refused exactly if the newest
      history time is the current time. */
  lemma {:induction false} ChangeRefusedIffStuck(column: Column, s: State, new_: Metrics, at: int)
    requires InOrder(s) && s.collectedAt.Some? && Changed(s.metrics, new_) && at > s.collectedAt.value
    ensures Registration(column, s, new_, at) == Err(HistoryTimestampTaken) <==> Stuck(s)
    ensures Registration(column, s, new_, at).Ok? <==> !Stuck(s)
  {
    OnlyNewestTaken(s);
  }

  // ---------- every run ----------

  predicate InRange(m: StoredMetrics) {
    && 0 <= m.rating <= MAX_RATING && 0 <= m.overpower <= MAX_OVERPOWER
    && (m.percent.Some? ==> 0 <= m.percent.value <= MAX_PERCENT)
  }

  /** Neighbours in the history differ. */
  ghost predicate NeighboursDiffer(history: seq<HistoryEntry>) {
    forall i, j :: 0 <= i < j < |history| && j == i + 1 ==> history[i].metrics != history[j].metrics
  }

  predicate Storable(e: HistoryEntry) {
    InRange(e.metrics) && Whole(e.collectedAt) && e.collectedAt > 0
  }

  /** What every run keeps, at whatever times its calls come. */
  ghost predicate Kept(s: State) {
    && InOrder(s) && |s.history| <= MAX_ENTRIES
    && (forall e :: e in s.history ==> Storable(e))
    && NeighboursDiffer(s.history)
    && (s.history != [] ==> s.history[|s.history| - 1].metrics != s.metrics)
    && InRange(s.metrics)
    && (s.collectedAt.Some? ==> Storable(HistoryEntry(s.metrics, s.collectedAt.value)))
  }

  ghost predicate Sound(s: State) { Kept(s) && Precedes(s) }

  datatype Call = Call(metrics: Metrics, at: int)

  /** Metrics the payload check accepts, at a time the column can hold. */
  predicate StorableCall(column: Column, c: Call) {
    InRange(StoredOf(c.metrics)) && column(c.at) > 0
  }

  /** Metrics the payload check accepts, collected at a whole second. */
  predicate WholeSecondCall(c: Call) {
    InRange(StoredOf(c.metrics)) && Whole(c.at) && c.at > 0
  }

  lemma {:induction false} GrownDiffer(history: seq<HistoryEntry>, e: HistoryEntry)
    requires NeighboursDiffer(history) && (history != [] ==> history[|history| - 1].metrics != e.metrics)
    ensures NeighboursDiffer(history + [e])
  {
  }

  lemma {:induction false} PrunedDiffer(history: seq<HistoryEntry>)
    requires NeighboursDiffer(history)
    ensures NeighboursDiffer(Pruned(history))
    ensures forall e :: e in Pruned(history) ==> e in history
  {
  }

  lemma {:induction false} RememberedKept(s: State)
    requires Kept(s) && s.collectedAt.Some?
    ensures var e := HistoryEntry(s.metrics, s.collectedAt.value); var history := Pruned(s.history + [e]);
      && 0 < |history| <= MAX_ENTRIES && NeighboursDiffer(history) && history[|history| - 1] == e
      && forall f :: f in history ==> Storable(f)
  {
    var e := HistoryEntry(s.metrics, s.collectedAt.value);
    GrownDiffer(s.history, e);
    PrunedDiffer(s.history + [e]);
    PrunedIs(s.history + [e]);
  }

  lemma {:induction false} CallKeepsKept(column: Column, s: State, c: Call)
    requires Orderly(column) && Kept(s) && StorableCall(column, c)
    requires Registration(column, s, c.metrics, c.at).Ok?
    ensures Kept(Registration(column, s, c.metrics, c.at).value)
  {
    CallKeepsOrder(column, s, c.metrics, c.at);
    if s.collectedAt.Some? && Changed(s.metrics, c.metrics) {
      RememberedKept(s);
    } else if s.collectedAt.Some? {
      assert s.metrics == StoredOf(c.metrics);
    }
  }

  /** One accepted call at a whole second keeps the history before the current metrics. */
  lemma {:induction false} CallKeepsSound(column: Column, s: State, c: Call)
    requires Orderly(column) && Sound(s) && WholeSecondCall(c)
    requires Registration(column, s, c.metrics, c.at).Ok?
    ensures Sound(Registration(column, s, c.metrics, c.at).value)
  {
    assert column(c.at) == c.at;
    CallKeepsKept(column, s, c);
    if s.collectedAt.Some? && Changed(s.metrics, c.metrics) {
      ChangeKeepsOrderIff(column, s, c.metrics, c.at);
    }
  }

  /** The state after a run of calls; None once a call is refused. */
  function Run(column: Column, s: State, calls: seq<Call>): Option<State>
    decreases |calls|
  {
    if calls == [] then Some(s)
    else
      match Registration(column, s, calls[0].metrics, calls[0].at)
      case Err(_) => None
      case Ok(next) => Run(column, next, calls[1..])
  }

  /** Every run of accepted calls, at any times, keeps a history whose times ascend up to the
      current one, whose neighbours differ and that is never longer than its limit. */
  lemma {:induction false} RunsStayKept(column: Column, s: State, calls: seq<Call>)
    requires Orderly(column) && Kept(s) && Run(column, s, calls).Some?
    requires forall i :: 0 <= i < |calls| ==> StorableCall(column, calls[i])
    ensures Kept(Run(column, s, calls).value) && |Run(column, s, calls).value.history| <= 500
    decreases |calls|
  {
    if calls != [] {
      CallKeepsKept(column, s, calls[0]);
      RunsStayKept(column, Registration(column, s, calls[0].metrics, calls[0].at).value, calls[1..]);
    }
  }

  /** If all calls come at whole seconds, the history stays before the current metrics, and no
      call is refused because its time is taken. */
  lemma {:induction false} RunsStaySound(column: Column, s: State, calls: seq<Call>, c: Call)
    requires Orderly(column) && Sound(s) && Run(column, s, calls).Some?
    requires forall i :: 0 <= i < |calls| ==> WholeSecondCall(calls[i])
    ensures Sound(Run(column, s, calls).value)
    ensures Registration(column, Run(column, s, calls).value, c.metrics, c.at) != Err(HistoryTimestampTaken)
    decreases |calls|
  {
    if calls != [] {
      CallKeepsSound(column, s, calls[0]);
      RunsStaySound(column, Registration(column, s, calls[0].metrics, calls[0].at).value, calls[1..], c);
    } else if s.collectedAt.Some? {
      OnlyNewestTaken(s);
    }
  }

  // ---------- changes within one second ----------

  /** A change keeps the history before the current metrics exactly if what the column stores is
      later than before; otherwise the newest history time is then the current time. */
  lemma {:induction false} ChangeKeepsOrderIff(column: Column, s: State, new_: Metrics, at: int)
    requires Orderly(column) && InOrder(s) && Registration(column, s, new_, at).Ok?
    requires s.collectedAt.Some? && Changed(s.metrics, new_)
    ensures var after := Registration(column, s, new_, at).value;
      && (Precedes(after) <==> s.collectedAt.value < column(at))
      && (Stuck(after) <==> s.collectedAt.value == column(at))
  {
    var after := Registration(column, s, new_, at).value;
    var grown := s.history + [HistoryEntry(s.metrics, s.collectedAt.value)];
    PrunedIs(grown);
    assert after.history[|after.history| - 1] == grown[|grown| - 1];
    CallKeepsOrder(column, s, new_, at);
    OnlyNewestTaken(after);
  }

  /** The state after attempts of which the refused ones change nothing. */
  function Attempted(column: Column, s: State, calls: seq<Call>): State
    decreases |calls|
  {
    if calls == [] then s
    else
      match Registration(column, s, calls[0].metrics, calls[0].at)
      case Err(_) => Attempted(column, s, calls[1..])
      case Ok(next) => Attempted(column, next, calls[1..])
  }

  /** From a state whose newest history time is its current time, any number of attempts to change
      the metrics, at any times, is refused. */
  lemma {:induction false} StuckChangesAreRefused(column: Column, s: State, calls: seq<Call>)
    requires Stuck(s) && forall i :: 0 <= i < |calls| ==> Changed(s.metrics, calls[i].metrics)
    ensures forall i :: 0 <= i < |calls| ==> Registration(column, s, calls[i].metrics, calls[i].at).Err?
    ensures Attempted(column, s, calls) == s
    decreases |calls|
  {
    assert s.history[|s.history| - 1].collectedAt == s.collectedAt.value;
    if calls != [] {
      StuckChangesAreRefused(column, s, calls[1..]);
    }
  }

  /** Only unchanged metrics that are stored at a later time end this. */
  lemma {:induction false} StuckEndsIff(column: Column, s: State, c: Call)
    requires Orderly(column) && InOrder(s) && Stuck(s)
    ensures !Stuck(Attempted(column, s, [c])) <==>
      !Changed(s.metrics, c.metrics) && c.at >= s.collectedAt.value && column(c.at) > s.collectedAt.value
  {
    assert s.history[|s.history| - 1].collectedAt == s.collectedAt.value;
    assert [c][1..] == [];
    if c.at >= s.collectedAt.value {
      assert column(s.collectedAt.value) == s.collectedAt.value <= column(c.at);
    }
  }

  // ---------- the transfer check ----------

  function DatabaseSecond(t: int): int { t - t % SECOND }

  datatype HistoryProblem = TooLong | MetricOutOfRange | TimeMissing | TimeTwice | NotAscending | NotBeforeCurrent

  /** What the transfer check wants of a history. */
  ghost predicate TransferHistoryOk(history: seq<HistoryEntry>, current: Option<int>) {
    && |history| <= 500
    && (forall i :: 0 <= i < |history| ==>
          && 0 <= history[i].metrics.rating <= 9_999 && 0 <= history[i].metrics.overpower <= 99_999_999
          && (history[i].metrics.percent.Some? ==> 0 <= history[i].metrics.percent.value <= 10_000)
          && history[i].collectedAt != 0
          && (current.Some? ==> history[i].collectedAt / 1_000_000 < current.value / 1_000_000))
    && (forall i, j :: 0 <= i < j < |history| ==>
          history[i].collectedAt / 1_000_000 < history[j].collectedAt / 1_000_000)
  }

  lemma {:induction false} OneMoreTransfers(history: seq<HistoryEntry>, i: nat, current: Option<int>)
    requires i < |history| <= MAX_ENTRIES && TransferHistoryOk(history[..i], current)
    requires InRange(history[i].metrics) && history[i].collectedAt != 0
    requires i > 0 ==> DatabaseSecond(history[i - 1].collectedAt) < DatabaseSecond(history[i].collectedAt)
    requires current.Some? ==> DatabaseSecond(history[i].collectedAt) < DatabaseSecond(current.value)
    ensures TransferHistoryOk(history[..i + 1], current)
  {
    var next := history[..i + 1];
    forall j, k | 0 <= j < k < |next|
      ensures DatabaseSecond(next[j].collectedAt) < DatabaseSecond(next[k].collectedAt)
    {
      if k < i {
        assert history[..i][j] == next[j] && history[..i][k] == next[k];
      } else if j < i - 1 {
        assert history[..i][j] == next[j] && history[..i][i - 1] == history[i - 1];
      }
    }
    forall j | 0 <= j < i ensures next[j] == history[..i][j] {}
  }

  /** A previous time of zero counts as no previous time. */
  method ValidateUserDataTransferMetricHistories(history: seq<HistoryEntry>, current: Option<int>)
    returns (problem: Option<HistoryProblem>)
    requires forall i :: 0 <= i < |history| ==> history[i].collectedAt >= 0
    ensures problem.None? <==> TransferHistoryOk(history, current)
  {
    if |history| > MAX_ENTRIES {
      return Some(TooLong);
    }
    var previous := 0;
    var seen: set<int> := {};
    for i := 0 to |history|
      invariant TransferHistoryOk(history[..i], current)
      invariant i == 0 ==> previous == 0 && seen == {}
      invariant i > 0 ==> previous == DatabaseSecond(history[i - 1].collectedAt) >= 0 && previous in seen
      invariant forall t :: t in seen ==> t <= previous
    {
      if !InRange(history[i].metrics) {
        return Some(MetricOutOfRange);
      }
      if history[i].collectedAt == 0 {
        return Some(TimeMissing);
      }
      var normalized := DatabaseSecond(history[i].collectedAt);
      if normalized in seen {
        return Some(TimeTwice);
      }
      seen := seen + {normalized};
      if previous != 0 && normalized <= previous {
        return Some(NotAscending);
      }
      previous := normalized;
      if current.Some? && normalized >= DatabaseSecond(current.value) {
        return Some(NotBeforeCurrent);
      }
      OneMoreTransfers(history, i, current);
    }
    assert history[..|history|] == history;
    return None;
  }

  /** What a run leaves behind, at any times, passes the transfer check exactly if its newest
      history time is not its current time. */
  lemma {:induction false} TransfersIffNotStuck(s: State)
    requires Kept(s)
    ensures TransferHistoryOk(s.history, s.collectedAt) <==> !Stuck(s)
  {
    assert forall i :: 0 <= i < |s.history| ==> s.history[i] in s.history;
    if s.collectedAt.Some? {
      OnlyNewestTaken(s);
    }
  }

  // ---------- one registration calls it twice ----------

  /** The second call of a registration, with the same metrics and time, is accepted exactly if
      the column does not store the time later than it is, and then changes nothing. */
  lemma {:induction false} SecondCallOfRegistration(column: Column, s: State, new_: Metrics, at: int)
    requires KeepsSeconds(column) && Registration(column, s, new_, at).Ok?
    ensures var first := Registration(column, s, new_, at).value;
      Registration(column, first, new_, at) == if column(at) <= at then Ok(first) else Err(Stale)
  {
  }

  /** Two changes within one second are accepted; the history then is not before the current
      metrics and does not transfer, and a third change, however late, is refused. */
  lemma {:induction false} ChangesWithinOneSecond(column: Column) returns (s: State, calls: seq<Call>, end: State)
    requires KeepsSeconds(column) && column(10 * SECOND + 1) == 10 * SECOND
    ensures Sound(s) && Run(column, s, calls) == Some(end)
    ensures forall i :: 0 <= i < |calls| ==> StorableCall(column, calls[i])
    ensures Stuck(end) && !TransferHistoryOk(end.history, end.collectedAt)
    ensures Registration(column, end, Metrics(1800, 0, 0), 12 * SECOND) == Err(HistoryTimestampTaken)
  {
    s := State(StoredMetrics(1500, 0, Some(0)), None, []);
    var first := Call(Metrics(1600, 0, 0), 10 * SECOND);
    var second := Call(Metrics(1700, 0, 0), 10 * SECOND + 1);
    calls := [first, second];
    assert Whole(10 * SECOND);
    var s1 := Saved(column, s, first.metrics, first.at);
    end := Saved(column, s1, second.metrics, second.at);
    assert calls[1..] == [second] && [second][1..] == [];
    assert Run(column, end, []) == Some(end);
    assert Run(column, s1, [second]) == Run(column, end, []);
    assert Run(column, s, calls) == Run(column, s1, calls[1..]);
    assert end.history[0].collectedAt == 10 * SECOND;
  }
}
