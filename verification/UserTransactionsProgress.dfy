/** Transactions that lock two user rows in ascending order of ID never block each other for
    good, and each of them ends after a bounded number of its own steps. */
module UserTransactionsProgress {
  import opened UserTransactions
  import opened UserTransactionsSafety

  ghost predicate Unfinished(s: State, t: TxId) {
    t in s.txs && !s.txs[t].phase.Done?
  }

  function Wanted(tx: Tx): UserId
    requires tx.phase.Locking? && tx.phase.taken < |LockPlan(tx)|
  {
    LockPlan(tx)[tx.phase.taken]
  }

  lemma {:induction false} HoldsOnlySmaller(tx: Tx, u: UserId)
    requires tx.phase.Locking? && tx.phase.taken < |LockPlan(tx)| && Holds(tx, u)
    ensures u < Wanted(tx)
  {
  }

  /** From a blocked transaction to the holder of the row it wants, and on: the wanted IDs
      grow along the way, so the walk ends at a transaction that can step. */
  lemma {:induction false} FollowHolders(s: State, t: TxId) returns (t': TxId)
    requires LocksOk(s) && Unfinished(s, t)
    ensures CanStep(s, t')
    decreases if s.txs[t].phase.Locking? && s.txs[t].phase.taken < |LockPlan(s.txs[t])|
              then 1 + |set u | u in s.owner && u >= Wanted(s.txs[t])| else 0
  {
    if CanStep(s, t) {
      return t;
    }
    var tx := s.txs[t];
    var holder := s.owner[Wanted(tx)];
    if CanStep(s, holder) {
      return holder;
    }
    HoldsOnlySmaller(s.txs[holder], Wanted(tx));
    var behind := set u | u in s.owner && u >= Wanted(tx);
    var ahead := set u | u in s.owner && u >= Wanted(s.txs[holder]);
    SubsetSize(ahead, behind - {Wanted(tx)});
    t' := FollowHolders(s, holder);
  }

  /** Deadlock freedom: in every state of every run, if some transaction is unfinished then
      some transaction can take its next step. */
  lemma {:induction false} NoDeadlock(states: seq<State>, acts: seq<Action>, k: nat, t: TxId)
    requires IsRun(states, acts) && Init(states[0]) && k < |states|
    requires Unfinished(states[k], t)
    ensures exists t' :: CanStep(states[k], t')
  {
    RunKeepsInv(states, acts, k);
    var t' := FollowHolders(states[k], t);
  }

  // ---------- no livelock ----------

  /** An upper bound on the steps a transaction still takes. */
  function Rank(tx: Tx): nat {
    match tx.phase
    case Locking(k) => 5 + (if k < |LockPlan(tx)| then |LockPlan(tx)| - k else 0)
    case FindOutgoing => 4
    case CountOutgoing => 3
    case FindIncoming => 2
    case CheckRequester => 2
    case Commit(_) => 1
    case Done(_) => 0
  }

  ghost function TotalRank(txs: map<TxId, Tx>): nat
    decreases |txs|
  {
    if txs == map[] then 0
    else
      var t :| t in txs;
      Rank(txs[t]) + TotalRank(txs - {t})
  }

  lemma {:induction false} TotalRankSplits(txs: map<TxId, Tx>, t: TxId)
    requires t in txs
    ensures TotalRank(txs) == Rank(txs[t]) + TotalRank(txs - {t})
    decreases |txs|
  {
    var first :| first in txs && TotalRank(txs) == Rank(txs[first]) + TotalRank(txs - {first});
    if first != t {
      TotalRankSplits(txs - {first}, t);
      TotalRankSplits(txs - {t}, first);
      assert txs - {first} - {t} == txs - {t} - {first};
    }
  }

  lemma {:induction false} TakeLockLowersRank(s: State, t: TxId)
    requires CanStep(s, t) && s.txs[t].phase.Locking?
    ensures Rank(TakeLock(s, t).txs[t]) < Rank(s.txs[t])
  {
    assert LockPlan(TakeLock(s, t).txs[t]) == LockPlan(s.txs[t]);
  }

  lemma {:induction false} ReadsLowerRank(tx: Tx, s: State, now: int)
    ensures tx.phase.FindOutgoing? ==> Rank(tx.(phase := AfterFindOutgoing(tx, s.rows))) < Rank(tx)
    ensures tx.phase.CountOutgoing? ==> Rank(tx.(phase := AfterCountOutgoing(tx, s.rows))) < Rank(tx)
    ensures tx.phase.FindIncoming? ==> Rank(tx.(phase := AfterFindIncoming(tx, s.rows, now))) < Rank(tx)
    ensures tx.phase.CheckRequester? ==> Rank(tx.(phase := AfterCheckRequester(tx, s.users))) < Rank(tx)
  {
  }

  lemma {:induction false} AdvanceLowersRank(s: State, t: TxId, now: int)
    requires CanStep(s, t)
    ensures Rank(TxNext(s, t, now).txs[t]) < Rank(s.txs[t])
  {
    var tx := s.txs[t];
    if tx.phase.Locking? {
      TakeLockLowersRank(s, t);
    } else if tx.phase.Commit? {
      CommitMovesLikeAbort(s, t);
    } else {
      ReadsLowerRank(tx, s, now);
    }
  }

  lemma {:induction false} OnlyOneMoves(s: State, t: TxId, now: int)
    requires CanStep(s, t)
    ensures TxNext(s, t, now).txs == s.txs[t := TxNext(s, t, now).txs[t]]
  {
    if s.txs[t].phase.Commit? {
      CommitMovesLikeAbort(s, t);
    }
  }

  lemma {:induction false} RankAfter(s: State, act: Action)
    requires LocksOk(s) && Enabled(s, act) && !act.Begin?
    ensures TotalRank(Next(s, act).txs) <= TotalRank(s.txs)
    ensures act.Advance? || act.Abort? ==> TotalRank(Next(s, act).txs) < TotalRank(s.txs)
  {
    if act.Advance? || act.Abort? {
      var s' := Next(s, act);
      if act.Advance? {
        AdvanceLowersRank(s, act.t, act.now);
        OnlyOneMoves(s, act.t, act.now);
      }
      TotalRankSplits(s.txs, act.t);
      TotalRankSplits(s'.txs, act.t);
      assert s'.txs - {act.t} == s.txs - {act.t};
    }
  }

  function TransactionSteps(acts: seq<Action>): nat {
    if acts == [] then 0
    else TransactionSteps(acts[..|acts| - 1])
         + (if acts[|acts| - 1].Advance? || acts[|acts| - 1].Abort? then 1 else 0)
  }

  /** Once no new transaction begins, the transactions under way take only a bounded number
      of steps, whatever the order and whatever is removed or registered meanwhile. */
  lemma {:induction false} NoLivelock(states: seq<State>, acts: seq<Action>)
    requires IsRun(states, acts) && Inv(states[0])
    requires forall k :: 0 <= k < |acts| ==> !acts[k].Begin?
    ensures Inv(states[|acts|])
    ensures TransactionSteps(acts) + TotalRank(states[|acts|].txs) <= TotalRank(states[0].txs)
    decreases |acts|
  {
    if acts != [] {
      var n := |acts| - 1;
      var acts', states' := acts[..n], states[..n + 1];
      assert IsRun(states', acts') by {
        forall k | 0 <= k < |acts'|
          ensures Enabled(states'[k], acts'[k]) && states'[k + 1] == Next(states'[k], acts'[k])
        {
          assert acts'[k] == acts[k] && states'[k] == states[k] && states'[k + 1] == states[k + 1];
        }
      }
      NoLivelock(states', acts');
      RankAfter(states[n], acts[n]);
      StepKeepsInv(states[n], acts[n]);
    }
  }
}
