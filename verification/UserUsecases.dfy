/** The use cases as straight-line code over the store, each proved equal to what its
    transaction of the state machine does when nobody interferes. */
module UserUsecases {
  import opened Common
  import opened FriendshipEntity
  import opened UserTransactions
  import opened UserTransactionsProgress
  import opened UserEffects

  datatype Effect = Effect(users: Users, rows: Rows, outcome: Outcome)

  /** The first user of the lock plan that is missing, if any. */
  function LockFailure(users: Users, tx: Tx): Option<Failure> {
    var plan := LockPlan(tx);
    if plan[0] !in users then Some(MissingUser(tx, plan[0]))
    else if plan[|plan| - 1] !in users then Some(MissingUser(tx, plan[|plan| - 1]))
    else None
  }

  function EffectOf(users: Users, rows: Rows, writes: Writes): Effect {
    match writes
    case Nothing => Effect(users, rows, Committed)
    case SaveRequest(row) => Effect(users, Save(rows, row), Committed)
    case SaveMutual(incoming, outgoing) => Effect(users, Save(Save(rows, incoming), outgoing), Committed)
    case DropPending(user, friend) => Effect(users, DeletePending(rows, user, friend), Committed)
    case SaveAccountType(user, expected, accountType) =>
      if user in users && users[user] == expected
      then Effect(users[user := accountType], rows, Committed)
      else Effect(users, rows, Failed(UserConflict))
    case EraseUser(user) =>
      if user in users
      then Effect(users - {user}, Cascade(rows, user), Committed)
      else Effect(users, rows, Failed(UserNotFound))
  }

  /** The transaction from its current phase to its end, on a store nobody else touches. */
  function Alone(users: Users, rows: Rows, tx: Tx, now: int): Effect
    decreases Rank(tx)
  {
    match tx.phase
    case Locking(_) =>
      (match LockFailure(users, tx)
       case Some(failure) => Effect(users, rows, Failed(failure))
       case None => Alone(users, rows, tx.(phase := AfterLocks(tx.request)), now))
    case FindOutgoing => Alone(users, rows, tx.(phase := AfterFindOutgoing(tx, rows)), now)
    case CountOutgoing => Alone(users, rows, tx.(phase := AfterCountOutgoing(tx, rows)), now)
    case FindIncoming => Alone(users, rows, tx.(phase := AfterFindIncoming(tx, rows, now)), now)
    case CheckRequester => Alone(users, rows, tx.(phase := AfterCheckRequester(tx, users)), now)
    case Commit(writes) => EffectOf(users, rows, writes)
    case Done(outcome) => Effect(users, rows, outcome)
  }

  /** The stages of one transaction, one step each. */
  lemma {:induction false} Stages(users: Users, rows: Rows, request: Request, self: UserId, other: UserId, now: int)
    ensures var tx := Tx(request, self, other, Locking(0));
      Alone(users, rows, tx, now)
      == match LockFailure(users, tx)
         case Some(failure) => Effect(users, rows, Failed(failure))
         case None => Alone(users, rows, tx.(phase := AfterLocks(request)), now)
    ensures var tx := Tx(request, self, other, FindOutgoing);
      Alone(users, rows, tx, now) == Alone(users, rows, tx.(phase := AfterFindOutgoing(tx, rows)), now)
    ensures var tx := Tx(request, self, other, CountOutgoing);
      Alone(users, rows, tx, now) == Alone(users, rows, tx.(phase := AfterCountOutgoing(tx, rows)), now)
    ensures var tx := Tx(request, self, other, FindIncoming);
      Alone(users, rows, tx, now) == Alone(users, rows, tx.(phase := AfterFindIncoming(tx, rows, now)), now)
    ensures var tx := Tx(request, self, other, CheckRequester);
      Alone(users, rows, tx, now) == Alone(users, rows, tx.(phase := AfterCheckRequester(tx, users)), now)
  {
  }

  // ---------- the machine does the same ----------

  /** Own steps only, as many as given or until the transaction cannot step. */
  function RunAlone(s: State, t: TxId, now: int, steps: nat): State
    decreases steps
  {
    if steps == 0 || !CanStep(s, t) then s
    else RunAlone(TxNext(s, t, now), t, now, steps - 1)
  }

  ghost predicate Ended(s: State, t: TxId, effect: Effect) {
    && t in s.txs && s.txs[t].phase == Done(effect.outcome)
    && s.users == effect.users && s.rows == effect.rows
  }

  lemma {:induction false} BodyAgrees(s: State, t: TxId, now: int, steps: nat)
    requires t in s.txs && !s.txs[t].phase.Locking? && steps >= Rank(s.txs[t])
    ensures Ended(RunAlone(s, t, now, steps), t, Alone(s.users, s.rows, s.txs[t], now))
    decreases Rank(s.txs[t])
  {
    var tx := s.txs[t];
    if !tx.phase.Done? {
      var s' := TxNext(s, t, now);
      AdvanceLowersRank(s, t, now);
      if tx.phase.Commit? {
        CommitHasEffect(s, t);
        assert RunAlone(s', t, now, steps - 1) == s';
      } else {
        BodyAgrees(s', t, now, steps - 1);
      }
    }
  }

  lemma {:induction false} CommitWritesEffect(s: State, t: TxId)
    requires t in s.txs && s.txs[t].phase.Commit?
    ensures var effect := EffectOf(s.users, s.rows, s.txs[t].phase.writes);
      CommitWrites(s, t).users == effect.users && CommitWrites(s, t).rows == effect.rows
  {
  }

  lemma {:induction false} CommitHasOutcome(s: State, t: TxId)
    requires t in s.txs && s.txs[t].phase.Commit?
    ensures t in CommitWrites(s, t).txs
    ensures CommitWrites(s, t).txs[t].phase == Done(EffectOf(s.users, s.rows, s.txs[t].phase.writes).outcome)
  {
  }

  lemma {:induction false} CommitHasEffect(s: State, t: TxId)
    requires t in s.txs && s.txs[t].phase.Commit?
    ensures Ended(CommitWrites(s, t), t, EffectOf(s.users, s.rows, s.txs[t].phase.writes))
  {
    CommitWritesEffect(s, t);
    CommitHasOutcome(s, t);
  }

  /** Taking the first lock: the transaction fails on a missing user, goes on to the second lock, or
      has all its locks. */
  lemma {:induction false} FirstLock(s: State, t: TxId)
    requires t in s.txs && s.txs[t].phase == Locking(0) && LockPlan(s.txs[t])[0] !in s.owner
    ensures CanStep(s, t)
    ensures var tx := s.txs[t]; var plan := LockPlan(tx); var s1 := TakeLock(s, t);
      && s1.users == s.users && s1.rows == s.rows && t in s1.txs
      && s1.txs[t] == tx.(phase :=
           if plan[0] !in s.users then Done(Failed(MissingUser(tx, plan[0])))
           else if |plan| == 1 then AfterLocks(tx.request) else Locking(1))
      && (plan[0] in s.users ==> s1.owner == s.owner[plan[0] := t])
  {
  }

  lemma {:induction false} SecondLock(s: State, t: TxId)
    requires t in s.txs && s.txs[t].phase == Locking(1) && |LockPlan(s.txs[t])| == 2
    requires LockPlan(s.txs[t])[1] !in s.owner
    ensures CanStep(s, t)
    ensures var tx := s.txs[t]; var plan := LockPlan(tx); var s1 := TakeLock(s, t);
      && s1.users == s.users && s1.rows == s.rows && t in s1.txs
      && s1.txs[t] == tx.(phase :=
           if plan[1] !in s.users then Done(Failed(MissingUser(tx, plan[1]))) else AfterLocks(tx.request))
  {
  }

  /** A transaction that finds its rows unlocked and is not interfered with ends within eight
      steps with the effect and the outcome of the straight-line code. */
  lemma {:induction false} MachineAgrees(s: State, t: TxId, now: int)
    requires t in s.txs && s.txs[t].phase == Locking(0)
    requires s.txs[t].self !in s.owner && s.txs[t].other !in s.owner
    ensures Ended(RunAlone(s, t, now, 8), t, Alone(s.users, s.rows, s.txs[t], now))
  {
    FirstLock(s, t);
    var s1 := TakeLock(s, t);
    assert RunAlone(s, t, now, 8) == RunAlone(s1, t, now, 7);
    if s1.txs[t].phase.Locking? {
      assert LockPlan(s1.txs[t]) == LockPlan(s.txs[t]);
      SecondLock(s1, t);
      var s2 := TakeLock(s1, t);
      assert RunAlone(s1, t, now, 7) == RunAlone(s2, t, now, 6);
      BodyAgrees(s2, t, now, 6);
    } else {
      BodyAgrees(s1, t, now, 7);
    }
  }

  // ---------- what the transactions leave ----------

  lemma {:induction false} SendLeaves(users: Users, rows: Rows, sender: UserId, target: UserId, now: int)
    requires Keyed(rows) && sender != target
    ensures var e := Alone(users, rows, Tx(SendRequest, sender, target, Locking(0)), now);
      e.users == users && Sent(users, rows, e.rows, sender, target, now, e.outcome)
  {
    ActiveIsOut(rows, sender);
    Stages(users, rows, SendRequest, sender, target, now);
    if (sender, target) !in rows {
      SendEnds(users, rows, sender, target, now);
    }
  }

  /** The last read of a request, and its commit. */
  lemma {:induction false} SendEnds(users: Users, rows: Rows, sender: UserId, target: UserId, now: int)
    requires Keyed(rows) && sender != target && (sender, target) !in rows
    ensures var tx := Tx(SendRequest, sender, target, FindIncoming);
      var e := Alone(users, rows, tx.(phase := AfterFindIncoming(tx, rows, now)), now);
      && e.users == users
      && if Pending(rows, target, sender) then
           if sender > 0 && target > 0 && rows[(target, sender)].requestedAt != 0
           then e.outcome == Committed && BothAccepted(rows, e.rows, target, sender, now)
           else e.outcome == Failed(InvalidFriendRequest) && e.rows == rows
         else if (target, sender) in rows then e.outcome == Failed(FriendshipAlreadyExists) && e.rows == rows
         else if sender > 0 && target > 0 && now != 0 then
           e.outcome == Committed && e.rows == rows[(sender, target) := Row(sender, target, 1, now, None, now, now)]
         else e.outcome == Failed(InvalidFriendRequest) && e.rows == rows
  {
  }

  lemma {:induction false} AcceptLeaves(users: Users, rows: Rows, accepter: UserId, requester: UserId, now: int)
    requires Keyed(rows) && accepter != requester
    ensures var e := Alone(users, rows, Tx(AcceptRequest, accepter, requester, Locking(0)), now);
      e.users == users && Accepted(users, rows, e.rows, accepter, requester, now, e.outcome)
  {
    ActiveIsOut(rows, accepter);
    Stages(users, rows, AcceptRequest, accepter, requester, now);
    if Pending(rows, requester, accepter) {
      AcceptEnds(users, rows, accepter, requester, now);
    }
  }

  lemma {:induction false} AcceptEnds(users: Users, rows: Rows, accepter: UserId, requester: UserId, now: int)
    requires Keyed(rows) && accepter != requester && Pending(rows, requester, accepter)
    ensures var tx := Tx(AcceptRequest, accepter, requester, FindIncoming);
      var e := Alone(users, rows, tx.(phase := AfterFindIncoming(tx, rows, now)), now);
      && e.users == users
      && if accepter > 0 && requester > 0 && rows[(requester, accepter)].requestedAt != 0
         then e.outcome == Committed && BothAccepted(rows, e.rows, requester, accepter, now)
         else e.outcome == Failed(InvalidFriendRequest) && e.rows == rows
  {
  }

  lemma {:induction false} RejectLeaves(users: Users, rows: Rows, user: UserId, requester: UserId)
    requires user != requester
    ensures var e := Alone(users, rows, Tx(RejectRequest, user, requester, Locking(0)), 0);
      e.users == users && Dropped(users, rows, e.rows, requester, user, e.outcome)
  {
    Stages(users, rows, RejectRequest, user, requester, 0);
  }

  lemma {:induction false} CancelLeaves(users: Users, rows: Rows, user: UserId, target: UserId)
    requires user != target
    ensures var e := Alone(users, rows, Tx(CancelRequest, user, target, Locking(0)), 0);
      e.users == users && Dropped(users, rows, e.rows, user, target, e.outcome)
  {
    Stages(users, rows, CancelRequest, user, target, 0);
  }

  lemma {:induction false} PermissionLeaves(
    users: Users, rows: Rows, requester: UserId, target: UserId, accountType: int)
    requires 1 <= accountType <= 4
    ensures var e := Alone(users, rows, Tx(ChangePermission(accountType), requester, target, Locking(0)), 0);
      e.rows == rows && PermissionChanged(users, e.users, requester, target, accountType, e.outcome)
  {
    Stages(users, rows, ChangePermission(accountType), requester, target, 0);
    assert target in users ==> users[target := users[target]] == users;
  }

  lemma {:induction false} DeleteLeaves(users: Users, rows: Rows, requester: UserId, target: UserId)
    requires requester != target
    ensures var e := Alone(users, rows, Tx(UserTransactions.DeleteUser, requester, target, Locking(0)), 0);
      UserDeleted(users, rows, e.users, e.rows, requester, target, e.outcome)
  {
    Stages(users, rows, UserTransactions.DeleteUser, requester, target, 0);
  }

  lemma {:induction false} OwnAccountLeaves(users: Users, rows: Rows, user: UserId)
    ensures var e := Alone(users, rows, Tx(UserTransactions.DeleteOwnAccount, user, user, Locking(0)), 0);
      if user in users then e.outcome == Committed && UserErased(users, rows, e.users, e.rows, user)
      else e == Effect(users, rows, Failed(UserNotFound))
  {
    Stages(users, rows, UserTransactions.DeleteOwnAccount, user, user, 0);
  }

  // ---------- friendships ----------

  class FriendshipUsecase {
    var users: Users
    var rows: Rows

    constructor (users: Users, rows: Rows)
      ensures this.users == users && this.rows == rows
    {
      this.users := users;
      this.rows := rows;
    }

    method FindRow(user: UserId, friend: UserId) returns (found: Friendship?)
      ensures Find(rows, user, friend) == if found == null then None else Some(found.Value())
      ensures found != null ==> fresh(found)
    {
      if (user, friend) in rows {
        found := new Friendship(rows[(user, friend)]);
      } else {
        found := null;
      }
    }

    method SaveRow(row: Row)
      modifies this`rows
      ensures rows == Save(old(rows), row)
    {
      rows := Save(rows, row);
    }

    /** Both users' rows, in ascending order of ID; missing users fail. */
    method LockUsers(userId: UserId, otherId: UserId) returns (failure: Option<Failure>)
      ensures failure.None? <==> userId in users && otherId in users
      ensures failure.Some? ==> failure.value == UserNotFound
    {
      var firstId := Min(userId, otherId);
      var secondId := Max(userId, otherId);
      if firstId !in users {
        return Some(UserNotFound);
      }
      if secondId == firstId {
        return None;
      }
      if secondId !in users {
        return Some(UserNotFound);
      }
      return None;
    }

    method EnsureOutgoingSlot(userId: UserId) returns (failure: Option<Failure>)
      ensures failure == if |Out(rows, userId)| >= MAX_OUTGOING then Some(FriendshipLimitExceeded) else None
    {
      if |Out(rows, userId)| >= MAX_OUTGOING {
        return Some(FriendshipLimitExceeded);
      }
      return None;
    }

    /** Accepts the incoming row and adds its reverse; an error undoes the first write. */
    method AcceptBoth(incoming: Friendship, accepterId: UserId, requesterId: UserId, acceptedAt: int)
      returns (outcome: Outcome)
      modifies this`rows, incoming
      ensures var phase := AcceptMutual(old(incoming.Value()), accepterId, requesterId, acceptedAt);
        Effect(users, rows, outcome)
        == if phase.Commit? then EffectOf(users, old(rows), phase.writes)
           else Effect(users, old(rows), Failed(InvalidFriendRequest))
    {
      var before := rows;
      var error := incoming.Accept(acceptedAt);
      if error.Some? {
        return Failed(InvalidFriendRequest);
      }
      SaveRow(incoming.Value());
      var outgoing := NewAcceptedFriendship(accepterId, requesterId, incoming.requestedAt, acceptedAt);
      if outgoing.Err? {
        rows := before;
        return Failed(InvalidFriendRequest);
      }
      SaveRow(outgoing.value);
      return Committed;
    }

    method Send(userId: UserId, target: Option<UserId>, now: int) returns (outcome: Outcome)
      modifies this`rows
      ensures target.None? ==> outcome == Failed(UserNotFound) && rows == old(rows)
      ensures target == Some(userId) ==> outcome == Failed(InvalidFriendRequest) && rows == old(rows)
      ensures target.Some? && target.value != userId ==>
        Effect(users, rows, outcome)
        == Alone(users, old(rows), Tx(SendRequest, userId, target.value, Locking(0)), now)
      ensures target.Some? && target.value != userId && Keyed(old(rows)) ==>
        Sent(users, old(rows), rows, userId, target.value, now, outcome)
    {
      if target.None? {
        return Failed(UserNotFound);
      }
      var targetId := target.value;
      if targetId == userId {
        return Failed(InvalidFriendRequest);
      }
      if Keyed(rows) {
        SendLeaves(users, rows, userId, targetId, now);
      }
      outcome := SendLocked(userId, targetId, now);
    }

    /** In one transaction. */
    method SendLocked(userId: UserId, targetId: UserId, now: int) returns (outcome: Outcome)
      requires targetId != userId
      modifies this`rows
      ensures Effect(users, rows, outcome)
           == Alone(users, old(rows), Tx(SendRequest, userId, targetId, Locking(0)), now)
    {
      Stages(users, rows, SendRequest, userId, targetId, now);
      var missing := LockUsers(userId, targetId);
      if missing.Some? {
        return Failed(missing.value);
      }
      var outgoing := FindRow(userId, targetId);
      if outgoing != null {
        return Failed(FriendshipAlreadyExists);
      }
      var full := EnsureOutgoingSlot(userId);
      if full.Some? {
        return Failed(full.value);
      }
      var incoming := FindRow(targetId, userId);
      if incoming != null {
        if incoming.Value().IsPending() {
          outcome := AcceptBoth(incoming, userId, targetId, now);
          return;
        }
        return Failed(FriendshipAlreadyExists);
      }
      var request := NewFriendRequest(userId, targetId, now);
      if request.Err? {
        return Failed(InvalidFriendRequest);
      }
      SaveRow(request.value);
      return Committed;
    }

    method Accept(userId: UserId, requester: Option<UserId>, now: int) returns (outcome: Outcome)
      modifies this`rows
      ensures requester.None? ==> outcome == Failed(UserNotFound) && rows == old(rows)
      ensures requester == Some(userId) ==> outcome == Failed(InvalidFriendRequest) && rows == old(rows)
      ensures requester.Some? && requester.value != userId ==>
        Effect(users, rows, outcome)
        == Alone(users, old(rows), Tx(AcceptRequest, userId, requester.value, Locking(0)), now)
      ensures requester.Some? && requester.value != userId && Keyed(old(rows)) ==>
        Accepted(users, old(rows), rows, userId, requester.value, now, outcome)
    {
      if requester.None? {
        return Failed(UserNotFound);
      }
      var requesterId := requester.value;
      if userId == requesterId {
        return Failed(InvalidFriendRequest);
      }
      if Keyed(rows) {
        AcceptLeaves(users, rows, userId, requesterId, now);
      }
      outcome := AcceptLocked(userId, requesterId, now);
    }

    /** In one transaction. */
    method AcceptLocked(userId: UserId, requesterId: UserId, now: int) returns (outcome: Outcome)
      requires requesterId != userId
      modifies this`rows
      ensures Effect(users, rows, outcome)
           == Alone(users, old(rows), Tx(AcceptRequest, userId, requesterId, Locking(0)), now)
    {
      Stages(users, rows, AcceptRequest, userId, requesterId, now);
      var missing := LockUsers(userId, requesterId);
      if missing.Some? {
        return Failed(missing.value);
      }
      var full := EnsureOutgoingSlot(userId);
      if full.Some? {
        return Failed(full.value);
      }
      var incoming := FindRow(requesterId, userId);
      if incoming == null || !incoming.Value().IsPending() {
        return Failed(FriendRequestNotFound);
      }
      outcome := AcceptBoth(incoming, userId, requesterId, now);
    }

    method Reject(userId: UserId, requester: Option<UserId>) returns (outcome: Outcome)
      modifies this`rows
      ensures requester.None? ==> outcome == Failed(UserNotFound) && rows == old(rows)
      ensures requester == Some(userId) ==> outcome == Failed(InvalidFriendRequest) && rows == old(rows)
      ensures requester.Some? && requester.value != userId ==>
        Effect(users, rows, outcome)
        == Alone(users, old(rows), Tx(RejectRequest, userId, requester.value, Locking(0)), 0)
      ensures requester.Some? && requester.value != userId ==>
        Dropped(users, old(rows), rows, requester.value, userId, outcome)
    {
      if requester.None? {
        return Failed(UserNotFound);
      }
      var requesterId := requester.value;
      if userId == requesterId {
        return Failed(InvalidFriendRequest);
      }
      RejectLeaves(users, rows, userId, requesterId);
      outcome := RejectLocked(userId, requesterId);
    }

    /** In one transaction. */
    method RejectLocked(userId: UserId, requesterId: UserId) returns (outcome: Outcome)
      requires requesterId != userId
      modifies this`rows
      ensures Effect(users, rows, outcome)
           == Alone(users, old(rows), Tx(RejectRequest, userId, requesterId, Locking(0)), 0)
    {
      Stages(users, rows, RejectRequest, userId, requesterId, 0);
      var missing := LockUsers(userId, requesterId);
      if missing.Some? {
        return Failed(missing.value);
      }
      var incoming := FindRow(requesterId, userId);
      if incoming == null || !incoming.Value().IsPending() {
        return Failed(FriendRequestNotFound);
      }
      rows := DeletePending(rows, requesterId, userId);
      return Committed;
    }

    method Cancel(userId: UserId, target: Option<UserId>) returns (outcome: Outcome)
      modifies this`rows
      ensures target.None? ==> outcome == Failed(UserNotFound) && rows == old(rows)
      ensures target == Some(userId) ==> outcome == Failed(InvalidFriendRequest) && rows == old(rows)
      ensures target.Some? && target.value != userId ==>
        Effect(users, rows, outcome)
        == Alone(users, old(rows), Tx(CancelRequest, userId, target.value, Locking(0)), 0)
      ensures target.Some? && target.value != userId ==>
        Dropped(users, old(rows), rows, userId, target.value, outcome)
    {
      if target.None? {
        return Failed(UserNotFound);
      }
      var targetId := target.value;
      if userId == targetId {
        return Failed(InvalidFriendRequest);
      }
      CancelLeaves(users, rows, userId, targetId);
      outcome := CancelLocked(userId, targetId);
    }

    /** In one transaction. */
    method CancelLocked(userId: UserId, targetId: UserId) returns (outcome: Outcome)
      requires targetId != userId
      modifies this`rows
      ensures Effect(users, rows, outcome)
           == Alone(users, old(rows), Tx(CancelRequest, userId, targetId, Locking(0)), 0)
    {
      Stages(users, rows, CancelRequest, userId, targetId, 0);
      var missing := LockUsers(userId, targetId);
      if missing.Some? {
        return Failed(missing.value);
      }
      var outgoing := FindRow(userId, targetId);
      if outgoing == null || !outgoing.Value().IsPending() {
        return Failed(FriendRequestNotFound);
      }
      rows := DeletePending(rows, userId, targetId);
      return Committed;
    }

    /** The unlocked deletion of both directions. */
    method Unfriend(userId: UserId, friend: Option<UserId>) returns (outcome: Outcome)
      modifies this`rows
      ensures friend.None? ==> outcome == Failed(UserNotFound) && rows == old(rows)
      ensures friend == Some(userId) ==> outcome == Failed(InvalidFriendRequest) && rows == old(rows)
      ensures friend.Some? && friend.value != userId ==>
        outcome == Committed
        && (userId, friend.value) !in rows && (friend.value, userId) !in rows
        && forall k :: k != (userId, friend.value) && k != (friend.value, userId) ==>
             (k in rows <==> k in old(rows)) && (k in rows ==> rows[k] == old(rows)[k])
    {
      if friend.None? {
        return Failed(UserNotFound);
      }
      if userId == friend.value {
        return Failed(InvalidFriendRequest);
      }
      rows := DeletePair(rows, userId, friend.value);
      return Committed;
    }
  }

  // ---------- administration ----------

  class User {
    const id: UserId
    var accountTypeId: int

    constructor (id: UserId, accountTypeId: int)
      ensures this.id == id && this.accountTypeId == accountTypeId
    {
      this.id := id;
      this.accountTypeId := accountTypeId;
    }

    method ChangeAccountType(requesterId: UserId, accountTypeId: int) returns (failure: Option<Failure>)
      modifies this
      ensures failure == ChangeAccountTypeError(id, old(this.accountTypeId), requesterId, accountTypeId)
      ensures this.accountTypeId == if failure.None? then accountTypeId else old(this.accountTypeId)
    {
      if !IsKnownAccountType(accountTypeId) {
        return Some(InvalidAccountType);
      }
      if id == requesterId && this.accountTypeId == ADMIN && accountTypeId != ADMIN {
        return Some(CannotDemoteOwnAdmin);
      }
      this.accountTypeId := accountTypeId;
      return None;
    }
  }

  function AccountTypeFromPermission(permission: string): Option<int> {
    if permission == "PLAYER" then Some(1)
    else if permission == "EDITOR" then Some(2)
    else if permission == "ADMIN" then Some(ADMIN)
    else if permission == "EXTDEV" then Some(4)
    else None
  }

  /** Exactly the four words mean an account type. */
  lemma {:induction false} OneMeaning(permission: string)
    ensures forall accountType ::
      Means(permission, accountType) <==> AccountTypeFromPermission(permission) == Some(accountType)
  {
  }

  class UserAdministration {
    var users: Users
    var rows: Rows

    constructor (users: Users, rows: Rows)
      ensures this.users == users && this.rows == rows
    {
      this.users := users;
      this.rows := rows;
    }

    /** Locks both users in ascending order of ID, the same user once. */
    method LockRequesterAndTarget(requesterId: UserId, targetId: UserId)
      returns (failure: Option<Failure>, requester: User?, target: User?)
      ensures failure.None? <==> requesterId in users && targetId in users
      ensures failure.None? ==>
        requester != null && target != null && fresh(requester) && fresh(target)
        && requester.id == requesterId && requester.accountTypeId == users[requesterId]
        && target.id == targetId && target.accountTypeId == users[targetId]
        && (requester == target <==> requesterId == targetId)
      ensures failure.Some? ==>
        forall request :: IsAdminRequest(request) ==>
          LockFailure(users, Tx(request, requesterId, targetId, Locking(0))) == failure
    {
      requester, target := null, null;
      var ids := if requesterId == targetId then [requesterId]
                 else [Min(requesterId, targetId), Max(requesterId, targetId)];
      var locked: map<UserId, User> := map[];
      var i := 0;
      while i < |ids|
        invariant 0 <= i <= |ids|
        invariant locked.Keys == set k | 0 <= k < i :: ids[k]
        invariant forall k :: 0 <= k < i ==> ids[k] in users
        invariant forall id :: id in locked ==>
          fresh(locked[id]) && locked[id].id == id && id in users
          && locked[id].accountTypeId == users[id]
      {
        var id := ids[i];
        if id !in users {
          return Some(if id == requesterId then AdminRequired else UserNotFound), null, null;
        }
        var user := new User(id, users[id]);
        locked := locked[id := user];
        i := i + 1;
      }
      assert requesterId == ids[0] || requesterId == ids[|ids| - 1];
      assert targetId == ids[0] || targetId == ids[|ids| - 1];
      return None, locked[requesterId], locked[targetId];
    }

    /** The requester is given as it was read before the transaction: its ID and the account
        type it had then. */
    method ChangePermission(requester: Option<(UserId, int)>, permission: string, target: Option<UserId>)
      returns (outcome: Outcome)
      modifies this`users
      ensures requester.None? || requester.value.1 != ADMIN ==>
        outcome == Failed(AdminRequired) && users == old(users)
      ensures requester.Some? && requester.value.1 == ADMIN
              && AccountTypeFromPermission(permission).None? ==>
        outcome == Failed(InvalidAccountType) && users == old(users)
      ensures requester.Some? && requester.value.1 == ADMIN
              && AccountTypeFromPermission(permission).Some? && target.None? ==>
        outcome == Failed(UserNotFound) && users == old(users)
      ensures requester.Some? && requester.value.1 == ADMIN
              && AccountTypeFromPermission(permission).Some? && target.Some? ==>
        Effect(users, rows, outcome)
        == Alone(old(users), rows,
                 Tx(UserTransactions.ChangePermission(AccountTypeFromPermission(permission).value),
                    requester.value.0, target.value, Locking(0)), 0)
      ensures requester.Some? && requester.value.1 == ADMIN
              && (forall accountType :: !Means(permission, accountType)) ==>
        outcome == Failed(InvalidAccountType) && users == old(users)
      ensures requester.Some? && requester.value.1 == ADMIN && target.Some? ==>
        forall accountType :: Means(permission, accountType) ==>
          PermissionChanged(old(users), users, requester.value.0, target.value, accountType, outcome)
    {
      if requester.None? || requester.value.1 != ADMIN {
        return Failed(AdminRequired);
      }
      var requesterId := requester.value.0;
      OneMeaning(permission);
      var accountType := AccountTypeFromPermission(permission);
      if accountType.None? {
        return Failed(InvalidAccountType);
      }
      if target.None? {
        return Failed(UserNotFound);
      }
      Stages(users, rows, UserTransactions.ChangePermission(accountType.value), requesterId, target.value, 0);
      PermissionLeaves(users, rows, requesterId, target.value, accountType.value);
      var failure, lockedRequester, lockedTarget := LockRequesterAndTarget(requesterId, target.value);
      if failure.Some? {
        return Failed(failure.value);
      }
      if lockedRequester.accountTypeId != ADMIN {
        return Failed(AdminRequired);
      }
      if lockedTarget.accountTypeId == accountType.value {
        return Committed;
      }
      var refused := lockedTarget.ChangeAccountType(requesterId, accountType.value);
      if refused.Some? {
        return Failed(refused.value);
      }
      users := users[lockedTarget.id := lockedTarget.accountTypeId];
      return Committed;
    }

    method DeleteUser(requester: Option<(UserId, int)>, target: Option<UserId>)
      returns (outcome: Outcome)
      modifies this`users, this`rows
      ensures requester.None? || requester.value.1 != ADMIN ==>
        Effect(users, rows, outcome) == Effect(old(users), old(rows), Failed(AdminRequired))
      ensures requester.Some? && requester.value.1 == ADMIN && target.None? ==>
        Effect(users, rows, outcome) == Effect(old(users), old(rows), Failed(UserNotFound))
      ensures requester.Some? && requester.value.1 == ADMIN && target == Some(requester.value.0) ==>
        Effect(users, rows, outcome) == Effect(old(users), old(rows), Failed(CannotDeleteSelf))
      ensures requester.Some? && requester.value.1 == ADMIN && target.Some?
              && target.value != requester.value.0 ==>
        Effect(users, rows, outcome)
        == Alone(old(users), old(rows),
                 Tx(UserTransactions.DeleteUser, requester.value.0, target.value, Locking(0)), 0)
      ensures requester.Some? && requester.value.1 == ADMIN && target.Some?
              && target.value != requester.value.0 ==>
        UserDeleted(old(users), old(rows), users, rows, requester.value.0, target.value, outcome)
    {
      if requester.None? || requester.value.1 != ADMIN {
        return Failed(AdminRequired);
      }
      if target.None? {
        return Failed(UserNotFound);
      }
      var requesterId := requester.value.0;
      if target.value == requesterId {
        return Failed(CannotDeleteSelf);
      }
      Stages(users, rows, UserTransactions.DeleteUser, requesterId, target.value, 0);
      DeleteLeaves(users, rows, requesterId, target.value);
      var failure, lockedRequester, _ := LockRequesterAndTarget(requesterId, target.value);
      if failure.Some? {
        return Failed(failure.value);
      }
      if lockedRequester.accountTypeId != ADMIN {
        return Failed(AdminRequired);
      }
      users := users - {target.value};
      rows := Cascade(rows, target.value);
      return Committed;
    }
  }

  class UserCredentials {
    var users: Users
    var rows: Rows

    constructor (users: Users, rows: Rows)
      ensures this.users == users && this.rows == rows
    {
      this.users := users;
      this.rows := rows;
    }

    /** Whether the sign-in just before is one of this user is known once the row is locked. */
    method DeleteOwnAccount(userId: UserId, reauthenticated: bool) returns (outcome: Outcome)
      modifies this`users, this`rows
      ensures reauthenticated || userId !in old(users) ==>
        Effect(users, rows, outcome)
        == Alone(old(users), old(rows), Tx(UserTransactions.DeleteOwnAccount, userId, userId, Locking(0)), 0)
      ensures !reauthenticated && userId in old(users) ==>
        Effect(users, rows, outcome) == Effect(old(users), old(rows), Failed(Interrupted))
      ensures userId !in users
        <==> outcome == Committed || userId !in old(users)
      ensures outcome == Committed ==> UserErased(old(users), old(rows), users, rows, userId)
    {
      Stages(users, rows, UserTransactions.DeleteOwnAccount, userId, userId, 0);
      OwnAccountLeaves(users, rows, userId);
      if userId !in users {
        return Failed(UserNotFound);
      }
      if !reauthenticated {
        return Failed(Interrupted);
      }
      users := users - {userId};
      rows := Cascade(rows, userId);
      return Committed;
    }
  }
}
