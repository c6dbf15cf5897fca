/** Every reachable state of the transaction machine: friendships are consistent, nobody has
    more than 100 outgoing rows, row locks belong to whoever took them, and a store that has
    an administrator loses the last one only if that one deletes the own account. */
module UserTransactionsSafety {
  import opened Common
  import opened FriendshipEntity
  import opened UserTransactions

  // ---------- the store ----------

  ghost predicate RowOk(users: Users, rows: Rows, k: (UserId, UserId))
    requires k in rows
  {
    var row := rows[k];
    && row.userId == k.0 && row.friendUserId == k.1 && row.Validate().None?
    && k.0 in users && k.1 in users
    && (row.IsPending() || row.IsAccepted())
    && (row.IsAccepted() ==> (k.1, k.0) in rows && rows[(k.1, k.0)].IsAccepted())
    && (row.IsPending() ==> (k.1, k.0) !in rows)
  }

  ghost predicate RowsOk(users: Users, rows: Rows) {
    forall k :: k in rows ==> RowOk(users, rows, k)
  }

  ghost predicate OutgoingOk(rows: Rows) {
    forall u :: |Out(rows, u)| <= MAX_OUTGOING
  }

  ghost predicate HasAdmin(users: Users) {
    exists u :: u in users && users[u] == ADMIN
  }

  // ---------- the locks ----------

  function Taken(tx: Tx): nat {
    match tx.phase
    case Locking(k) => k
    case Done(_) => 0
    case _ => |LockPlan(tx)|
  }

  ghost predicate Holds(tx: Tx, u: UserId) {
    exists i :: 0 <= i < Taken(tx) && i < |LockPlan(tx)| && LockPlan(tx)[i] == u
  }

  /** Who is still locking has a row left to lock. */
  ghost predicate LocksLeft(s: State) {
    forall t :: t in s.txs && s.txs[t].phase.Locking? ==> s.txs[t].phase.taken < |LockPlan(s.txs[t])|
  }

  /** A locked row exists, and its owner holds it. */
  ghost predicate OwnersHold(s: State) {
    forall u :: u in s.owner ==> s.owner[u] in s.txs && u in s.users && Holds(s.txs[s.owner[u]], u)
  }

  /** Who holds a row owns it. */
  ghost predicate HoldersOwn(s: State) {
    forall t, u :: t in s.txs && Holds(s.txs[t], u) ==> u in s.owner && s.owner[u] == t
  }

  ghost predicate LocksOk(s: State) {
    LocksLeft(s) && OwnersHold(s) && HoldersOwn(s)
  }

  // ---------- what a transaction still knows when it acts on its reads ----------

  ghost predicate NoOutgoing(s: State, tx: Tx) { tx.other !in Out(s.rows, tx.self) }

  ghost predicate OutgoingRoom(s: State, tx: Tx) { |Out(s.rows, tx.self)| < MAX_OUTGOING }

  ghost predicate RequesterIsAdmin(s: State, tx: Tx) {
    tx.self in s.users && s.users[tx.self] == ADMIN
  }

  ghost predicate WritesJustified(s: State, tx: Tx, writes: Writes) {
    match writes
    case Nothing =>
      && RequesterIsAdmin(s, tx) && tx.request.ChangePermission?
      && tx.other in s.users && s.users[tx.other] == tx.request.accountType
    case SaveRequest(row) =>
      && row.userId == tx.self && row.friendUserId == tx.other
      && row.IsPending() && row.Validate().None?
      && NoOutgoing(s, tx) && OutgoingRoom(s, tx)
      && tx.self !in Out(s.rows, tx.other)
    case SaveMutual(incoming, outgoing) =>
      && incoming.userId == tx.other && incoming.friendUserId == tx.self
      && incoming.IsAccepted() && incoming.Validate().None?
      && outgoing.userId == tx.self && outgoing.friendUserId == tx.other
      && outgoing.IsAccepted() && outgoing.Validate().None?
      && NoOutgoing(s, tx) && OutgoingRoom(s, tx)
      && |Out(s.rows, tx.other) + {tx.self}| <= MAX_OUTGOING
    case DropPending(_, _) => true
    case SaveAccountType(user, expected, accountType) =>
      && RequesterIsAdmin(s, tx) && user == tx.other
      && user in s.users && s.users[user] == expected
      && (tx.other == tx.self ==> accountType == ADMIN)
    case EraseUser(user) =>
      && user == tx.other && user in s.users
      && (tx.request.DeleteOwnAccount? || (RequesterIsAdmin(s, tx) && tx.other != tx.self))
  }

  ghost predicate Knows(s: State, tx: Tx) {
    && UsersFit(tx)
    && match tx.phase
       case Locking(_) => true
       case FindOutgoing => tx.request.SendRequest? || tx.request.CancelRequest?
       case CountOutgoing =>
         tx.request.AcceptRequest? || (tx.request.SendRequest? && NoOutgoing(s, tx))
       case FindIncoming =>
         tx.request.RejectRequest?
         || (tx.request.AcceptRequest? && OutgoingRoom(s, tx))
         || (tx.request.SendRequest? && NoOutgoing(s, tx) && OutgoingRoom(s, tx))
       case CheckRequester => IsAdminRequest(tx.request) || (tx.request.DeleteOwnAccount? && tx.self in s.users)
       case Commit(writes) =>
         WritesJustified(s, tx, writes) && (tx.request.DeleteOwnAccount? ==> writes.EraseUser?)
       case Done(_) => true
  }

  ghost predicate Inv(s: State) {
    && RowsOk(s.users, s.rows)
    && OutgoingOk(s.rows)
    && LocksOk(s)
    && forall t :: t in s.txs ==> Knows(s, s.txs[t])
  }

  /** Any consistent store, also an empty one, and no transaction under way. */
  ghost predicate Init(s: State) {
    && RowsOk(s.users, s.rows)
    && OutgoingOk(s.rows)
    && s.txs == map[] && s.owner == map[]
  }

  // ---------- sets of outgoing rows ----------

  lemma {:induction false} SubsetSize<T>(a: set<T>, b: set<T>)
    requires a <= b
    ensures |a| <= |b|
  {
    assert b == a + (b - a);
  }

  lemma {:induction false} OutAfterSave(rows: Rows, row: Row, u: UserId)
    requires row.IsPending() || row.IsAccepted()
    ensures Out(Save(rows, row), u)
         == Out(rows, u) + (if u == row.userId then {row.friendUserId} else {})
  {
  }

  lemma {:induction false} OutShrinks(rows: Rows, rows': Rows, u: UserId)
    requires forall k :: k in rows' ==> k in rows && rows'[k] == rows[k]
    ensures Out(rows', u) <= Out(rows, u)
    ensures |Out(rows', u)| <= |Out(rows, u)|
  {
    SubsetSize(Out(rows', u), Out(rows, u));
  }

  lemma {:induction false} OutMember(users: Users, rows: Rows, u: UserId, v: UserId)
    requires RowsOk(users, rows)
    ensures v in Out(rows, u) <==> (u, v) in rows
  {
  }

  // ---------- frame: what other transactions know survives ----------

  ghost predicate Quiet(s: State, s': State, tx: Tx) {
    && Out(s'.rows, tx.self) <= Out(s.rows, tx.self)
    && Out(s'.rows, tx.other) <= Out(s.rows, tx.other)
    && (forall u :: u in s.users && (u == tx.self || u == tx.other) ==>
          u in s'.users && s'.users[u] == s.users[u])
  }

  lemma {:induction false} KnowledgeSurvives(s: State, s': State, tx: Tx)
    requires Knows(s, tx) && Quiet(s, s', tx)
    ensures Knows(s', tx)
  {
    SubsetSize(Out(s'.rows, tx.self), Out(s.rows, tx.self));
    SubsetSize(Out(s'.rows, tx.other) + {tx.self}, Out(s.rows, tx.other) + {tx.self});
  }

  /** Two transactions past locking have no user in common. */
  lemma {:induction false} LockedUsersAreDisjoint(s: State, t: TxId, t': TxId)
    requires LocksOk(s) && t in s.txs && t' in s.txs && t != t'
    requires !s.txs[t].phase.Locking? && !s.txs[t].phase.Done?
    requires !s.txs[t'].phase.Locking? && !s.txs[t'].phase.Done?
    ensures s.txs[t].self != s.txs[t'].self && s.txs[t].self != s.txs[t'].other
    ensures s.txs[t].other != s.txs[t'].self && s.txs[t].other != s.txs[t'].other
  {
    HoldsBoth(s.txs[t]);
    HoldsBoth(s.txs[t']);
    assert s.owner[s.txs[t].self] == t && s.owner[s.txs[t].other] == t;
    assert s.owner[s.txs[t'].self] == t' && s.owner[s.txs[t'].other] == t';
  }

  lemma {:induction false} HoldsBoth(tx: Tx)
    requires !tx.phase.Locking? && !tx.phase.Done?
    ensures Holds(tx, tx.self) && Holds(tx, tx.other)
  {
    var plan := LockPlan(tx);
    assert plan[0] == tx.self || plan[|plan| - 1] == tx.self;
    assert plan[0] == tx.other || plan[|plan| - 1] == tx.other;
  }

  // ---------- locks ----------

  lemma {:induction false} LocksAfterGoto(s: State, t: TxId, phase: Phase)
    requires LocksOk(s) && t in s.txs && !s.txs[t].phase.Locking? && !s.txs[t].phase.Done?
    requires !phase.Locking?
    ensures LocksOk(Goto(s, t, phase))
  {
    var s' := Goto(s, t, phase);
    var tx, tx' := s.txs[t], s'.txs[t];
    assert LockPlan(tx) == LockPlan(tx');
    forall u | Holds(tx', u) ensures Holds(tx, u) {}
    if !phase.Done? {
      forall u | Holds(tx, u) ensures Holds(tx', u) {}
    }
  }

  lemma {:induction false} LocksAfterAbort(s: State, t: TxId, outcome: Outcome)
    requires LocksOk(s) && t in s.txs
    ensures LocksOk(Goto(s, t, Done(outcome)))
  {
  }

  /** Taking a lock adds one row to those the transaction holds. */
  lemma {:induction false} HoldsOneMore(s: State, t: TxId, u: UserId)
    requires CanStep(s, t) && s.txs[t].phase.Locking? && LockPlan(s.txs[t])[s.txs[t].phase.taken] in s.users
    ensures Holds(TakeLock(s, t).txs[t], u) <==>
      Holds(s.txs[t], u) || u == LockPlan(s.txs[t])[s.txs[t].phase.taken]
  {
    var tx, tx' := s.txs[t], TakeLock(s, t).txs[t];
    var plan := LockPlan(tx);
    assert LockPlan(tx') == plan && Taken(tx') == tx.phase.taken + 1;
    if Holds(tx, u) {
      var i :| 0 <= i < Taken(tx) && plan[i] == u;
      assert LockPlan(tx')[i] == u;
    }
    assert LockPlan(tx')[tx.phase.taken] == plan[tx.phase.taken];
  }

  /** Only one transaction moved, and it holds and owns one more row. */
  ghost predicate TakesOne(s: State, s': State, t: TxId, id: UserId) {
    && t in s.txs && s'.txs.Keys == s.txs.Keys && s'.users == s.users
    && (forall t' :: t' in s.txs && t' != t ==> s'.txs[t'] == s.txs[t'])
    && id !in s.owner && id in s.users && s'.owner == s.owner[id := t]
    && forall u :: Holds(s'.txs[t], u) <==> Holds(s.txs[t], u) || u == id
  }

  lemma {:induction false} TakeLockTakesOne(s: State, t: TxId)
    requires CanStep(s, t) && s.txs[t].phase.Locking? && LockPlan(s.txs[t])[s.txs[t].phase.taken] in s.users
    ensures TakesOne(s, TakeLock(s, t), t, LockPlan(s.txs[t])[s.txs[t].phase.taken])
  {
    forall u ensures
      Holds(TakeLock(s, t).txs[t], u) <==> Holds(s.txs[t], u) || u == LockPlan(s.txs[t])[s.txs[t].phase.taken]
    {
      HoldsOneMore(s, t, u);
    }
  }

  lemma {:induction false} OwnersHoldAfterTake(s: State, s': State, t: TxId, id: UserId)
    requires OwnersHold(s) && TakesOne(s, s', t, id)
    ensures OwnersHold(s')
  {
  }

  lemma {:induction false} HoldersOwnAfterTake(s: State, s': State, t: TxId, id: UserId)
    requires HoldersOwn(s) && TakesOne(s, s', t, id)
    ensures HoldersOwn(s')
  {
  }

  lemma {:induction false} LocksLeftAfterTake(s: State, t: TxId)
    requires LocksLeft(s) && CanStep(s, t) && s.txs[t].phase.Locking?
    ensures LocksLeft(TakeLock(s, t))
  {
    assert LockPlan(TakeLock(s, t).txs[t]) == LockPlan(s.txs[t]);
  }

  lemma {:induction false} LocksAfterTake(s: State, t: TxId)
    requires LocksOk(s) && CanStep(s, t) && s.txs[t].phase.Locking?
    ensures LocksOk(TakeLock(s, t))
  {
    var id := LockPlan(s.txs[t])[s.txs[t].phase.taken];
    if id !in s.users {
      LocksAfterAbort(s, t, Failed(MissingUser(s.txs[t], id)));
    } else {
      TakeLockTakesOne(s, t);
      LocksLeftAfterTake(s, t);
      OwnersHoldAfterTake(s, TakeLock(s, t), t, id);
      HoldersOwnAfterTake(s, TakeLock(s, t), t, id);
    }
  }

  // ---------- steps that only drop rows ----------

  /** Rows go away, but never one half of an accepted pair. */
  ghost predicate Drops(rows: Rows, rows': Rows) {
    && (forall k :: k in rows' ==> k in rows && rows'[k] == rows[k])
    && (forall k :: k in rows' && rows'[k].IsAccepted() ==> (k.1, k.0) in rows')
  }

  lemma {:induction false} DropsKeepsRows(users: Users, users': Users, rows: Rows, rows': Rows)
    requires RowsOk(users, rows) && OutgoingOk(rows) && Drops(rows, rows')
    requires forall k :: k in rows' ==> k.0 in users' && k.1 in users'
    ensures RowsOk(users', rows') && OutgoingOk(rows')
  {
    forall k | k in rows' ensures RowOk(users', rows', k) {
      assert RowOk(users, rows, k);
    }
    forall u ensures |Out(rows', u)| <= MAX_OUTGOING {
      OutShrinks(rows, rows', u);
    }
  }

  lemma {:induction false} DeletePairDrops(users: Users, rows: Rows, user: UserId, friend: UserId)
    requires RowsOk(users, rows)
    ensures Drops(rows, DeletePair(rows, user, friend))
  {
  }

  lemma {:induction false} DeletePendingDrops(users: Users, rows: Rows, user: UserId, friend: UserId)
    requires RowsOk(users, rows)
    ensures Drops(rows, DeletePending(rows, user, friend))
  {
  }

  lemma {:induction false} CascadeDrops(users: Users, rows: Rows, user: UserId)
    requires RowsOk(users, rows)
    ensures Drops(rows, Cascade(rows, user))
    ensures forall k :: k in Cascade(rows, user) ==> k.0 in users - {user} && k.1 in users - {user}
  {
  }

  // ---------- commits that add rows ----------

  lemma {:induction false} SaveRequestKeepsRows(s: State, tx: Tx, row: Row)
    requires RowsOk(s.users, s.rows) && OutgoingOk(s.rows)
    requires tx.self in s.users && tx.other in s.users
    requires WritesJustified(s, tx, SaveRequest(row))
    ensures RowsOk(s.users, Save(s.rows, row)) && OutgoingOk(Save(s.rows, row))
  {
    var rows' := Save(s.rows, row);
    OutMember(s.users, s.rows, tx.self, tx.other);
    OutMember(s.users, s.rows, tx.other, tx.self);
    forall k | k in rows' ensures RowOk(s.users, rows', k) {
      if k != (tx.self, tx.other) {
        assert RowOk(s.users, s.rows, k);
      }
    }
    forall u ensures |Out(rows', u)| <= MAX_OUTGOING {
      OutAfterSave(s.rows, row, u);
    }
  }

  lemma {:induction false} SaveMutualKeepsRows(s: State, tx: Tx, incoming: Row, outgoing: Row)
    requires RowsOk(s.users, s.rows) && OutgoingOk(s.rows)
    requires tx.self in s.users && tx.other in s.users
    requires WritesJustified(s, tx, SaveMutual(incoming, outgoing))
    ensures RowsOk(s.users, Save(Save(s.rows, incoming), outgoing))
    ensures OutgoingOk(Save(Save(s.rows, incoming), outgoing))
  {
    var mid := Save(s.rows, incoming);
    var rows' := Save(mid, outgoing);
    OutMember(s.users, s.rows, tx.self, tx.other);
    forall k | k in rows' ensures RowOk(s.users, rows', k) {
      if k != (tx.self, tx.other) && k != (tx.other, tx.self) {
        assert RowOk(s.users, s.rows, k);
        assert rows'[k] == s.rows[k];
      } else {
        assert rows'[(tx.self, tx.other)].statusId == ACCEPTED;
        assert rows'[(tx.other, tx.self)].statusId == ACCEPTED;
      }
    }
    forall u ensures |Out(rows', u)| <= MAX_OUTGOING {
      OutAfterSave(s.rows, incoming, u);
      OutAfterSave(mid, outgoing, u);
    }
  }

  // ---------- own knowledge after a read ----------

  lemma {:induction false} FindOutgoingJustifies(s: State, tx: Tx)
    requires RowsOk(s.users, s.rows) && Knows(s, tx) && tx.phase.FindOutgoing?
    ensures Knows(s, tx.(phase := AfterFindOutgoing(tx, s.rows)))
  {
  }

  lemma {:induction false} CountOutgoingJustifies(s: State, tx: Tx)
    requires Knows(s, tx) && tx.phase.CountOutgoing?
    ensures Knows(s, tx.(phase := AfterCountOutgoing(tx, s.rows)))
  {
  }

  /** A pending row has no reverse row, so accepting it adds exactly one outgoing row. */
  lemma {:induction false} AcceptMutualJustified(s: State, tx: Tx, now: int)
    requires RowsOk(s.users, s.rows) && OutgoingOk(s.rows)
    requires (tx.other, tx.self) in s.rows && s.rows[(tx.other, tx.self)].IsPending()
    requires OutgoingRoom(s, tx)
    ensures var phase := AcceptMutual(s.rows[(tx.other, tx.self)], tx.self, tx.other, now);
      phase.Commit? ==> WritesJustified(s, tx, phase.writes)
  {
  }

  lemma {:induction false} FindIncomingJustifies(s: State, tx: Tx, now: int)
    requires RowsOk(s.users, s.rows) && OutgoingOk(s.rows)
    requires Knows(s, tx) && tx.phase.FindIncoming?
    ensures Knows(s, tx.(phase := AfterFindIncoming(tx, s.rows, now)))
  {
    OutMember(s.users, s.rows, tx.other, tx.self);
    if (tx.other, tx.self) in s.rows && s.rows[(tx.other, tx.self)].IsPending()
       && !tx.request.RejectRequest? {
      AcceptMutualJustified(s, tx, now);
    }
  }

  lemma {:induction false} CheckRequesterJustifies(s: State, tx: Tx)
    requires Knows(s, tx) && tx.phase.CheckRequester?
    ensures Knows(s, tx.(phase := AfterCheckRequester(tx, s.users)))
  {
  }

  // ---------- every action keeps the invariant ----------

  lemma {:induction false} OthersStillKnow(s: State, s': State, t: TxId)
    requires forall t' :: t' in s'.txs && t' != t ==> t' in s.txs && s'.txs[t'] == s.txs[t']
    requires forall t' :: t' in s.txs ==> Knows(s, s.txs[t'])
    requires forall t' :: t' in s.txs && t' != t ==>
      s.txs[t'].phase.Locking? || s.txs[t'].phase.Done? || Quiet(s, s', s.txs[t'])
    ensures forall t' :: t' in s'.txs && t' != t ==> Knows(s', s'.txs[t'])
  {
    forall t' | t' in s'.txs && t' != t ensures Knows(s', s'.txs[t']) {
      var tx := s.txs[t'];
      if !tx.phase.Locking? && !tx.phase.Done? {
        KnowledgeSurvives(s, s', tx);
      }
    }
  }

  lemma {:induction false} OwnMoveKeepsInv(s: State, t: TxId, phase: Phase)
    requires Inv(s) && t in s.txs && LocksOk(Goto(s, t, phase))
    requires Knows(s, s.txs[t].(phase := phase))
    ensures Inv(Goto(s, t, phase))
  {
    var s' := Goto(s, t, phase);
    OthersStillKnow(s, s', t);
    KnowledgeSurvives(s, s', s'.txs[t]);
  }

  lemma {:induction false} TakeLockJustifies(s: State, t: TxId)
    requires CanStep(s, t) && s.txs[t].phase.Locking? && Knows(s, s.txs[t])
    ensures var s' := TakeLock(s, t);
      s'.users == s.users && s'.rows == s.rows && Knows(s', s'.txs[t])
  {
  }

  lemma {:induction false} OthersKnowAfterTake(s: State, t: TxId)
    requires CanStep(s, t) && s.txs[t].phase.Locking? && forall t' :: t' in s.txs ==> Knows(s, s.txs[t'])
    ensures var s' := TakeLock(s, t);
      forall t' :: t' in s'.txs && t' != t ==> Knows(s', s'.txs[t'])
  {
    OthersStillKnow(s, TakeLock(s, t), t);
  }

  lemma {:induction false} TakeLockKeepsInv(s: State, t: TxId)
    requires Inv(s) && CanStep(s, t) && s.txs[t].phase.Locking?
    ensures Inv(TakeLock(s, t))
  {
    LocksAfterTake(s, t);
    TakeLockJustifies(s, t);
    OthersKnowAfterTake(s, t);
  }

  lemma {:induction false} ReadKeepsInv(s: State, t: TxId, now: int)
    requires Inv(s) && CanStep(s, t)
    requires !s.txs[t].phase.Locking? && !s.txs[t].phase.Commit?
    ensures Inv(TxNext(s, t, now))
  {
    var s' := TxNext(s, t, now);
    var tx := s.txs[t];
    assert Knows(s, tx);
    match tx.phase {
      case FindOutgoing => FindOutgoingJustifies(s, tx);
      case CountOutgoing => CountOutgoingJustifies(s, tx);
      case FindIncoming => FindIncomingJustifies(s, tx, now);
      case CheckRequester => CheckRequesterJustifies(s, tx);
    }
    LocksAfterGoto(s, t, s'.txs[t].phase);
    OwnMoveKeepsInv(s, t, s'.txs[t].phase);
  }

  /** A commit adds no outgoing rows to other users than its own two. */
  lemma {:induction false} CommitAddsNoOut(s: State, t: TxId, u: UserId)
    requires t in s.txs && s.txs[t].phase.Commit? && Knows(s, s.txs[t])
    requires u != s.txs[t].self && u != s.txs[t].other
    ensures Out(CommitWrites(s, t).rows, u) <= Out(s.rows, u)
  {
    match s.txs[t].phase.writes
    case SaveRequest(row) => OutAfterSave(s.rows, row, u);
    case SaveMutual(incoming, outgoing) =>
      OutAfterSave(s.rows, incoming, u);
      OutAfterSave(Save(s.rows, incoming), outgoing, u);
    case _ => OutShrinks(s.rows, CommitWrites(s, t).rows, u);
  }

  lemma {:induction false} CommitIsQuiet(s: State, t: TxId, t': TxId)
    requires Inv(s) && t in s.txs && s.txs[t].phase.Commit? && t' in s.txs && t' != t
    requires !s.txs[t'].phase.Locking? && !s.txs[t'].phase.Done?
    ensures Quiet(s, CommitWrites(s, t), s.txs[t'])
  {
    var tx, tx' := s.txs[t], s.txs[t'];
    var s' := CommitWrites(s, t);
    assert Knows(s, tx);
    LockedUsersAreDisjoint(s, t, t');
    CommitAddsNoOut(s, t, tx'.self);
    CommitAddsNoOut(s, t, tx'.other);
  }

  lemma {:induction false} CommitKeepsStore(s: State, t: TxId)
    requires Inv(s) && t in s.txs && s.txs[t].phase.Commit?
    ensures var s' := CommitWrites(s, t);
      RowsOk(s'.users, s'.rows) && OutgoingOk(s'.rows)
  {
    var tx := s.txs[t];
    var s' := CommitWrites(s, t);
    assert Knows(s, tx);
    HoldsBoth(tx);
    match tx.phase.writes
    case Nothing =>
    case SaveRequest(row) => SaveRequestKeepsRows(s, tx, row);
    case SaveMutual(incoming, outgoing) => SaveMutualKeepsRows(s, tx, incoming, outgoing);
    case DropPending(user, friend) =>
      DeletePendingDrops(s.users, s.rows, user, friend);
      forall k | k in s'.rows ensures k.0 in s'.users && k.1 in s'.users {
        assert RowOk(s.users, s.rows, k);
      }
      DropsKeepsRows(s.users, s'.users, s.rows, s'.rows);
    case SaveAccountType(user, expected, accountType) =>
      forall k | k in s'.rows ensures RowOk(s'.users, s'.rows, k) {
        assert RowOk(s.users, s.rows, k);
      }
    case EraseUser(user) =>
      CascadeDrops(s.users, s.rows, user);
      DropsKeepsRows(s.users, s'.users, s.rows, s'.rows);
  }

  lemma {:induction false} CommitMovesLikeAbort(s: State, t: TxId)
    requires t in s.txs && s.txs[t].phase.Commit?
    ensures var s' := CommitWrites(s, t);
      s'.txs[t].phase.Done? && s'.txs == Goto(s, t, s'.txs[t].phase).txs
      && s'.owner == Goto(s, t, s'.txs[t].phase).owner
  {
  }

  /** A commit ends its transaction and releases its locks; it deletes at most the other user. */
  ghost predicate EndsOnly(s: State, s': State, t: TxId) {
    && t in s.txs && s'.txs.Keys == s.txs.Keys && s'.txs[t].phase.Done?
    && (forall t' :: t' in s.txs && t' != t ==> s'.txs[t'] == s.txs[t'])
    && s'.owner == Released(s.owner, t)
    && forall u :: u in s.users && u != s.txs[t].other ==> u in s'.users
  }

  lemma {:induction false} CommitEndsOnly(s: State, t: TxId)
    requires t in s.txs && s.txs[t].phase.Commit?
    requires s.txs[t].phase.writes.EraseUser? ==> s.txs[t].phase.writes.user == s.txs[t].other
    ensures EndsOnly(s, CommitWrites(s, t), t)
  {
    CommitMovesLikeAbort(s, t);
  }

  lemma {:induction false} OwnersHoldAfterEnd(s: State, s': State, t: TxId)
    requires LocksOk(s) && EndsOnly(s, s', t) && Holds(s.txs[t], s.txs[t].other)
    ensures OwnersHold(s')
  {
    assert s.owner[s.txs[t].other] == t;
  }

  lemma {:induction false} HoldersOwnAfterEnd(s: State, s': State, t: TxId)
    requires LocksOk(s) && EndsOnly(s, s', t)
    ensures HoldersOwn(s')
  {
    assert forall u :: !Holds(s'.txs[t], u);
  }

  lemma {:induction false} CommitKeepsLocks(s: State, t: TxId)
    requires LocksOk(s) && t in s.txs && s.txs[t].phase.Commit?
    requires s.txs[t].phase.writes.EraseUser? ==> s.txs[t].phase.writes.user == s.txs[t].other
    ensures LocksOk(CommitWrites(s, t))
  {
    var s' := CommitWrites(s, t);
    CommitEndsOnly(s, t);
    HoldsBoth(s.txs[t]);
    OwnersHoldAfterEnd(s, s', t);
    HoldersOwnAfterEnd(s, s', t);
  }

  lemma {:induction false} CommitKeepsInv(s: State, t: TxId)
    requires Inv(s) && t in s.txs && s.txs[t].phase.Commit?
    ensures Inv(CommitWrites(s, t))
  {
    var s' := CommitWrites(s, t);
    assert Knows(s, s.txs[t]);
    CommitKeepsStore(s, t);
    CommitKeepsLocks(s, t);
    CommitMovesLikeAbort(s, t);
    forall t' | t' in s'.txs ensures Knows(s', s'.txs[t']) {
      if t' != t {
        assert Knows(s, s.txs[t']);
        if !s.txs[t'].phase.Locking? && !s.txs[t'].phase.Done? {
          CommitIsQuiet(s, t, t');
          KnowledgeSurvives(s, s', s.txs[t']);
        }
      }
    }
  }

  lemma {:induction false} RemoveKeepsInv(s: State, user: UserId, friend: UserId)
    requires Inv(s)
    ensures Inv(s.(rows := DeletePair(s.rows, user, friend)))
  {
    var s' := s.(rows := DeletePair(s.rows, user, friend));
    DeletePairDrops(s.users, s.rows, user, friend);
    forall k | k in s'.rows ensures k.0 in s.users && k.1 in s.users {
      assert RowOk(s.users, s.rows, k);
    }
    DropsKeepsRows(s.users, s.users, s.rows, s'.rows);
    forall t | t in s'.txs ensures Knows(s', s'.txs[t]) {
      OutShrinks(s.rows, s'.rows, s.txs[t].self);
      OutShrinks(s.rows, s'.rows, s.txs[t].other);
      KnowledgeSurvives(s, s', s.txs[t]);
    }
  }

  lemma {:induction false} RegisterKeepsInv(s: State, user: UserId, accountType: int)
    requires Inv(s) && user !in s.users
    ensures Inv(s.(users := s.users[user := accountType]))
  {
    var s' := s.(users := s.users[user := accountType]);
    forall k | k in s'.rows ensures RowOk(s'.users, s'.rows, k) {
      assert RowOk(s.users, s.rows, k);
    }
    forall t | t in s'.txs ensures Knows(s', s'.txs[t]) {
      KnowledgeSurvives(s, s', s.txs[t]);
    }
  }

  lemma {:induction false} BeginKeepsInv(s: State, t: TxId, tx: Tx)
    requires Inv(s) && t !in s.txs && MayBegin(tx)
    ensures Inv(s.(txs := s.txs[t := tx]))
  {
    var s' := s.(txs := s.txs[t := tx]);
    OthersStillKnow(s, s', t);
  }

  lemma {:induction false} StepKeepsInv(s: State, act: Action)
    requires Inv(s) && Enabled(s, act)
    ensures Inv(Next(s, act))
  {
    match act
    case Begin(t, tx) => BeginKeepsInv(s, t, tx);
    case Advance(t, now) =>
      if s.txs[t].phase.Locking? {
        TakeLockKeepsInv(s, t);
      } else if s.txs[t].phase.Commit? {
        CommitKeepsInv(s, t);
      } else {
        ReadKeepsInv(s, t, now);
      }
    case Abort(t) =>
      LocksAfterAbort(s, t, Failed(Interrupted));
      assert Knows(s, s.txs[t]);
      OwnMoveKeepsInv(s, t, Done(Failed(Interrupted)));
    case Remove(user, friend) => RemoveKeepsInv(s, user, friend);
    case Register(user, accountType) => RegisterKeepsInv(s, user, accountType);
  }

  lemma {:induction false} RunKeepsInv(states: seq<State>, acts: seq<Action>, k: nat)
    requires IsRun(states, acts) && Init(states[0]) && k < |states|
    ensures Inv(states[k])
  {
    if k > 0 {
      RunKeepsInv(states, acts, k - 1);
      StepKeepsInv(states[k - 1], acts[k - 1]);
    }
  }

  // ---------- what users see ----------

  /** In every state of every run: no row points at its own user, an accepted row has an
      accepted reverse row, a pending row has no reverse row, and every row joins two
      existing users. */
  lemma {:induction false} FriendshipsStayConsistent(states: seq<State>, acts: seq<Action>, k: nat)
    requires IsRun(states, acts) && Init(states[0]) && k < |states|
    ensures forall a, b :: (a, b) in states[k].rows ==>
      && a != b && a in states[k].users && b in states[k].users
      && (states[k].rows[(a, b)].IsPending() || states[k].rows[(a, b)].IsAccepted())
      && (states[k].rows[(a, b)].IsAccepted() ==>
            (b, a) in states[k].rows && states[k].rows[(b, a)].IsAccepted())
      && (states[k].rows[(a, b)].IsPending() ==> (b, a) !in states[k].rows)
      && (states[k].rows[(a, b)].IsAccepted() <==> states[k].rows[(a, b)].acceptedAt.Some?)
  {
    var s := states[k];
    RunKeepsInv(states, acts, k);
    forall a, b | (a, b) in s.rows ensures RowOk(s.users, s.rows, (a, b)) {}
  }

  /** In every state of every run nobody has more than 100 outgoing rows. */
  lemma {:induction false} OutgoingStaysBounded(states: seq<State>, acts: seq<Action>, k: nat, u: UserId)
    requires IsRun(states, acts) && Init(states[0]) && k < |states|
    ensures |set key | key in states[k].rows && key.0 == u :: key.1| <= 100
  {
    var s := states[k];
    RunKeepsInv(states, acts, k);
    forall key | key in s.rows ensures RowOk(s.users, s.rows, key) {}
    assert (set key | key in s.rows && key.0 == u :: key.1) == Out(s.rows, u);
  }

  /** The guards of the repositories (the account type must still be the one read, the user
      must still exist) never fire: no commit is refused. */
  lemma {:induction false} CommitsAreNotRefused(states: seq<State>, acts: seq<Action>, k: nat, t: TxId)
    requires IsRun(states, acts) && Init(states[0]) && k < |states|
    requires t in states[k].txs && states[k].txs[t].phase.Commit?
    ensures CommitWrites(states[k], t).txs[t].phase == Done(Committed)
  {
    RunKeepsInv(states, acts, k);
    assert Knows(states[k], states[k].txs[t]);
  }

  /** The only administrator deletes the own account. */
  ghost predicate LastAdministratorLeaves(s: State, act: Action) {
    && act.Advance? && act.t in s.txs && s.txs[act.t].phase.Commit? && s.txs[act.t].request.DeleteOwnAccount?
    && forall u :: u in s.users && s.users[u] == ADMIN ==> u == s.txs[act.t].self
  }

  lemma {:induction false} CommitKeepsAdminIff(s: State, t: TxId, now: int)
    requires Inv(s) && t in s.txs && s.txs[t].phase.Commit? && HasAdmin(s.users)
    ensures HasAdmin(CommitWrites(s, t).users) <==> !LastAdministratorLeaves(s, Advance(t, now))
  {
    var tx, users' := s.txs[t], CommitWrites(s, t).users;
    assert Knows(s, tx);
    var admin :| admin in s.users && s.users[admin] == ADMIN;
    if tx.request.DeleteOwnAccount? {
      forall u ensures u in users' <==> u in s.users && u != tx.self {}
    } else if tx.phase.writes.SaveAccountType? || tx.phase.writes.EraseUser? {
      assert tx.self in users' && users'[tx.self] == ADMIN;
    } else {
      assert admin in users' && users'[admin] == ADMIN;
    }
  }

  /** A step leaves a store without an administrator only in one way. */
  lemma {:induction false} StepKeepsAdminIff(s: State, act: Action)
    requires Inv(s) && Enabled(s, act) && HasAdmin(s.users)
    ensures HasAdmin(Next(s, act).users) <==> !LastAdministratorLeaves(s, act)
  {
    var admin :| admin in s.users && s.users[admin] == ADMIN;
    if act.Advance? && s.txs[act.t].phase.Commit? {
      CommitKeepsAdminIff(s, act.t, act.now);
    } else {
      assert admin in Next(s, act).users && Next(s, act).users[admin] == ADMIN;
    }
  }

  ghost predicate Administered(states: seq<State>, j: nat, k: nat)
    requires k < |states|
  {
    forall i :: j <= i <= k ==> HasAdmin(states[i].users)
  }

  ghost predicate LastAdministratorStays(states: seq<State>, acts: seq<Action>, j: nat, k: nat)
    requires k <= |acts| < |states|
  {
    forall i :: j <= i < k ==> !LastAdministratorLeaves(states[i], acts[i])
  }

  /** Once there is an administrator, there is one all along if and only if the last one never
      deletes the own account: no interleaving of permission changes and deletions of others
      leaves the store without one. */
  lemma {:induction false} AdministratorRemains(states: seq<State>, acts: seq<Action>, j: nat, k: nat)
    requires IsRun(states, acts) && Init(states[0]) && j <= k < |states| && HasAdmin(states[j].users)
    ensures Administered(states, j, k) <==> LastAdministratorStays(states, acts, j, k)
    decreases k
  {
    if j < k {
      var n := k - 1;
      AdministratorRemains(states, acts, j, n);
      RunKeepsInv(states, acts, n);
      if Administered(states, j, n) {
        StepKeepsAdminIff(states[n], acts[n]);
        assert HasAdmin(states[n + 1].users) <==> !LastAdministratorLeaves(states[n], acts[n]);
      }
    }
  }
}
