/** What every commit of a run leaves in the store, whatever happened between its reads and it. */
module UserCommits {
  import opened Common
  import opened FriendshipEntity
  import opened UserTransactions
  import opened UserTransactionsSafety
  import opened UserEffects

  /** The step that decided what the transaction commits. */
  ghost predicate Decided(states: seq<State>, acts: seq<Action>, j: nat, k: nat, t: TxId)
    requires k < |states| && t in states[k].txs
  {
    && j < k && j < |acts| && acts[j].Advance? && acts[j].t == t && t in states[j].txs
    && CanStep(states[j], t) && !states[j].txs[t].phase.Locking? && !states[j].txs[t].phase.Commit?
    && states[k].txs[t] == states[j].txs[t].(phase := states[k].txs[t].phase)
    && TxNext(states[j], t, acts[j].now).txs[t] == states[k].txs[t]
  }

  lemma {:induction false} OthersKeepTx(s: State, act: Action, t: TxId)
    requires Enabled(s, act) && t in Next(s, act).txs && Next(s, act).txs[t].phase.Commit?
    ensures t in s.txs
    ensures !(act.Advance? && act.t == t) ==> s.txs[t] == Next(s, act).txs[t]
  {
    if act.Advance? && s.txs[act.t].phase.Commit? {
      CommitMovesLikeAbort(s, act.t);
    }
  }

  lemma {:induction false} OwnStepDecides(s: State, t: TxId, now: int)
    requires CanStep(s, t) && TxNext(s, t, now).txs[t].phase.Commit?
    ensures !s.txs[t].phase.Locking? && !s.txs[t].phase.Commit?
    ensures TxNext(s, t, now).txs[t] == s.txs[t].(phase := TxNext(s, t, now).txs[t].phase)
  {
    if s.txs[t].phase.Commit? {
      CommitMovesLikeAbort(s, t);
    }
  }

  /** Every transaction about to commit read its decision before. */
  lemma {:induction false} CommitWasDecided(states: seq<State>, acts: seq<Action>, k: nat, t: TxId) returns (j: nat)
    requires IsRun(states, acts) && Init(states[0]) && k < |states|
    requires t in states[k].txs && states[k].txs[t].phase.Commit?
    ensures Decided(states, acts, j, k, t)
  {
    var s, act := states[k - 1], acts[k - 1];
    OthersKeepTx(s, act, t);
    if act.Advance? && act.t == t {
      OwnStepDecides(s, t, act.now);
      j := k - 1;
    } else {
      j := CommitWasDecided(states, acts, k - 1, t);
    }
  }

  /** Both directions are accepted at the time of the decision, for the request read then. */
  ghost predicate MadeFriends(read: Rows, before: Rows, after: Rows, requester: UserId, accepter: UserId, at: int) {
    var there, back := (requester, accepter), (accepter, requester);
    && Pending(read, requester, accepter)
    && OthersUnchanged(before, after, {there, back}) && there in after && back in after
    && after[there].statusId == 2 && after[back].statusId == 2
    && after[there].acceptedAt == Some(at) && after[back].acceptedAt == Some(at)
    && after[there].requestedAt == read[there].requestedAt == after[back].requestedAt
    && after[there].userId == requester && after[there].friendUserId == accepter
    && after[back].userId == accepter && after[back].friendUserId == requester
  }

  /** What a transaction commits, by its request: rows and users before the commit, and the store
      that it read and the instant when it decided. */
  ghost predicate Commits(read: State, at: int, s: State, s': State, tx: Tx) {
    var self, other := tx.self, tx.other;
    match tx.request
    case SendRequest =>
      s'.users == s.users
      && if Pending(read.rows, other, self) then MadeFriends(read.rows, s.rows, s'.rows, other, self, at)
         else (other, self) !in read.rows && OthersUnchanged(s.rows, s'.rows, {(self, other)})
              && Pending(s'.rows, self, other) && s'.rows[(self, other)].requestedAt == at
              && s'.rows[(self, other)].acceptedAt == None
    case AcceptRequest =>
      s'.users == s.users && MadeFriends(read.rows, s.rows, s'.rows, other, self, at)
    case RejectRequest =>
      s'.users == s.users && Pending(read.rows, other, self) && !Pending(s'.rows, other, self)
      && s'.rows == if Pending(s.rows, other, self) then s.rows - {(other, self)} else s.rows
    case CancelRequest =>
      s'.users == s.users && Pending(read.rows, self, other) && !Pending(s'.rows, self, other)
      && s'.rows == if Pending(s.rows, self, other) then s.rows - {(self, other)} else s.rows
    case ChangePermission(accountType) =>
      s'.rows == s.rows && self in s.users && s.users[self] == 3
      && other in s.users && s'.users == s.users[other := accountType]
      && (other == self ==> accountType == 3)
    case DeleteUser =>
      self in s.users && s.users[self] == 3 && self != other && other in s.users
      && UserErased(s.users, s.rows, s'.users, s'.rows, other)
    case DeleteOwnAccount =>
      self == other && self in s.users && UserErased(s.users, s.rows, s'.users, s'.rows, self)
  }

  lemma {:induction false} MutualCommits(
    read: State, at: int, s: State, t: TxId, incoming: Row, outgoing: Row)
    requires t in s.txs && s.txs[t].phase == Commit(SaveMutual(incoming, outgoing))
    requires var tx := s.txs[t];
      && Pending(read.rows, tx.other, tx.self) && RowOk(read.users, read.rows, (tx.other, tx.self))
      && AcceptMutual(read.rows[(tx.other, tx.self)], tx.self, tx.other, at) == s.txs[t].phase
    ensures MadeFriends(read.rows, s.rows, CommitWrites(s, t).rows, s.txs[t].other, s.txs[t].self, at)
    ensures CommitWrites(s, t).users == s.users
  {
  }

  lemma {:induction false} SendCommits(read: State, at: int, s: State, t: TxId)
    requires RowsOk(read.users, read.rows) && t in s.txs && s.txs[t].request.SendRequest?
    requires s.txs[t].phase.Commit?
    requires s.txs[t].phase == AfterFindIncoming(s.txs[t].(phase := FindIncoming), read.rows, at)
    ensures Commits(read, at, s, CommitWrites(s, t), s.txs[t])
  {
    var tx := s.txs[t];
    if Pending(read.rows, tx.other, tx.self) {
      assert RowOk(read.users, read.rows, (tx.other, tx.self));
      MutualCommits(read, at, s, t, tx.phase.writes.incoming, tx.phase.writes.outgoing);
    }
  }

  lemma {:induction false} AcceptCommits(read: State, at: int, s: State, t: TxId)
    requires RowsOk(read.users, read.rows) && t in s.txs && s.txs[t].request.AcceptRequest?
    requires s.txs[t].phase.Commit?
    requires s.txs[t].phase == AfterFindIncoming(s.txs[t].(phase := FindIncoming), read.rows, at)
    ensures Commits(read, at, s, CommitWrites(s, t), s.txs[t])
  {
    var tx := s.txs[t];
    assert RowOk(read.users, read.rows, (tx.other, tx.self));
    MutualCommits(read, at, s, t, tx.phase.writes.incoming, tx.phase.writes.outgoing);
  }

  lemma {:induction false} DropCommits(read: State, at: int, s: State, t: TxId)
    requires t in s.txs && s.txs[t].phase.Commit?
    requires (s.txs[t].request.RejectRequest?
              && s.txs[t].phase == AfterFindIncoming(s.txs[t].(phase := FindIncoming), read.rows, at))
          || (s.txs[t].request.CancelRequest?
              && s.txs[t].phase == AfterFindOutgoing(s.txs[t].(phase := FindOutgoing), read.rows))
    ensures Commits(read, at, s, CommitWrites(s, t), s.txs[t])
  {
  }

  lemma {:induction false} AdminCommits(read: State, at: int, s: State, t: TxId)
    requires t in s.txs && s.txs[t].phase.Commit? && Knows(s, s.txs[t])
    requires s.txs[t].request.ChangePermission? || s.txs[t].request.DeleteUser? || s.txs[t].request.DeleteOwnAccount?
    requires s.txs[t].phase == AfterCheckRequester(s.txs[t].(phase := CheckRequester), read.users)
    ensures Commits(read, at, s, CommitWrites(s, t), s.txs[t])
  {
    var tx := s.txs[t];
    if tx.phase.writes == Nothing {
      assert s.users[tx.other := tx.request.accountType] == s.users;
    }
  }

  /** In every run a commit leaves in the store what its transaction asked for, on the strength of
      one of its own reads before. */
  lemma {:induction false} CommitLeaves(states: seq<State>, acts: seq<Action>, k: nat) returns (j: nat)
    requires IsRun(states, acts) && Init(states[0]) && k < |acts| && acts[k].Advance?
    requires acts[k].t in states[k].txs && states[k].txs[acts[k].t].phase.Commit?
    ensures j < k && acts[j].Advance? && acts[j].t == acts[k].t
    ensures Commits(states[j], acts[j].now, states[k], states[k + 1], states[k].txs[acts[k].t])
    ensures states[k + 1].txs[acts[k].t].phase == Done(Committed)
  {
    var s, t := states[k], acts[k].t;
    RunKeepsInv(states, acts, k);
    j := CommitWasDecided(states, acts, k, t);
    RunKeepsInv(states, acts, j);
    var read := states[j];
    assert Knows(s, s.txs[t]) && Knows(read, read.txs[t]);
    CommitsAreNotRefused(states, acts, k, t);
    DecisionCommits(read, acts[j].now, s, t);
  }

  lemma {:induction false} DecisionCommits(read: State, at: int, s: State, t: TxId)
    requires RowsOk(read.users, read.rows) && t in s.txs && s.txs[t].phase.Commit? && Knows(s, s.txs[t])
    requires t in read.txs && CanStep(read, t) && Knows(read, read.txs[t])
    requires !read.txs[t].phase.Locking? && !read.txs[t].phase.Commit?
    requires s.txs[t] == read.txs[t].(phase := s.txs[t].phase) && TxNext(read, t, at).txs[t] == s.txs[t]
    ensures Commits(read, at, s, CommitWrites(s, t), s.txs[t])
  {
    var tx := read.txs[t];
    match tx.request
    case SendRequest => SendCommits(read, at, s, t);
    case AcceptRequest => AcceptCommits(read, at, s, t);
    case RejectRequest => DropCommits(read, at, s, t);
    case CancelRequest => DropCommits(read, at, s, t);
    case _ => AdminCommits(read, at, s, t);
  }
}
