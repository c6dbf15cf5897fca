/** Concurrent transactions over user rows and friendships, as a state machine. A transaction
    locks the rows of its two users in ascending order of ID, reads the store one query at a
    time, and commits its writes at once; everybody else may act between any two of its steps.
    Removing a friendship takes no lock. */
module UserTransactions {
  import opened Common
  import opened FriendshipEntity

  const ADMIN := 3
  const MAX_OUTGOING := 100

  type UserId = int
  type TxId = nat
  type Rows = map<(UserId, UserId), Row>
  type Users = map<UserId, int>

  datatype Request =
    | SendRequest
    | AcceptRequest
    | RejectRequest
    | CancelRequest
    | ChangePermission(accountType: int)
    | DeleteUser
    | DeleteOwnAccount

  datatype Failure =
    | UserNotFound
    | InvalidFriendRequest
    | FriendshipAlreadyExists
    | FriendRequestNotFound
    | FriendshipLimitExceeded
    | AdminRequired
    | InvalidAccountType
    | CannotDemoteOwnAdmin
    | CannotDeleteSelf
    | UserConflict
    | Interrupted

  datatype Outcome = Committed | Failed(failure: Failure)

  /** What a transaction that passed all its checks is about to commit. */
  datatype Writes =
    | Nothing
    | SaveRequest(row: Row)
    | SaveMutual(incoming: Row, outgoing: Row)
    | DropPending(userId: UserId, friendId: UserId)
    | SaveAccountType(user: UserId, expected: int, accountType: int)
    | EraseUser(user: UserId)

  datatype Phase =
    | Locking(taken: nat)
    | FindOutgoing
    | CountOutgoing
    | FindIncoming
    | CheckRequester
    | Commit(writes: Writes)
    | Done(outcome: Outcome)

  datatype Tx = Tx(request: Request, self: UserId, other: UserId, phase: Phase)

  datatype State = State(users: Users, rows: Rows, owner: map<UserId, TxId>, txs: map<TxId, Tx>)

  // ---------- queries and writes of the repositories ----------

  function Find(rows: Rows, user: UserId, friend: UserId): Option<Row> {
    if (user, friend) in rows then Some(rows[(user, friend)]) else None
  }

  /** The users this user points at; pending and accepted rows both count. */
  function Out(rows: Rows, user: UserId): set<UserId> {
    set k | k in rows && k.0 == user && (rows[k].IsPending() || rows[k].IsAccepted()) :: k.1
  }

  /** An upsert: an existing row keeps its creation time. */
  function Save(rows: Rows, row: Row): Rows {
    var key := (row.userId, row.friendUserId);
    rows[key := if key in rows then row.(createdAt := rows[key].createdAt) else row]
  }

  function DeletePending(rows: Rows, user: UserId, friend: UserId): Rows {
    if (user, friend) in rows && rows[(user, friend)].IsPending()
    then rows - {(user, friend)}
    else rows
  }

  function DeletePair(rows: Rows, user: UserId, friend: UserId): Rows {
    rows - {(user, friend), (friend, user)}
  }

  /** Deleting a user takes the rows of both directions with it (foreign keys cascade). */
  function Cascade(rows: Rows, user: UserId): Rows {
    map k | k in rows && k.0 != user && k.1 != user :: rows[k]
  }

  // ---------- one transaction ----------

  function Min(a: int, b: int): int { if a <= b then a else b }

  function Max(a: int, b: int): int { if a <= b then b else a }

  function LockPlan(tx: Tx): seq<UserId> {
    if tx.self == tx.other then [tx.self]
    else [Min(tx.self, tx.other), Max(tx.self, tx.other)]
  }

  function AfterLocks(request: Request): Phase {
    match request
    case SendRequest => FindOutgoing
    case AcceptRequest => CountOutgoing
    case RejectRequest => FindIncoming
    case CancelRequest => FindOutgoing
    case ChangePermission(_) => CheckRequester
    case DeleteUser => CheckRequester
    case DeleteOwnAccount => CheckRequester
  }

  predicate IsAdminRequest(request: Request) {
    request.ChangePermission? || request.DeleteUser?
  }

  function MissingUser(tx: Tx, id: UserId): Failure {
    if IsAdminRequest(tx.request) && id == tx.self then AdminRequired else UserNotFound
  }

  function AcceptMutual(incoming: Row, accepter: UserId, requester: UserId, at: int): Phase {
    if incoming.AcceptError(at).Some? then Done(Failed(InvalidFriendRequest))
    else match NewAcceptedFriendship(accepter, requester, incoming.requestedAt, at)
      case Err(_) => Done(Failed(InvalidFriendRequest))
      case Ok(outgoing) => Commit(SaveMutual(incoming.AfterAccept(at), outgoing))
  }

  function AfterFindOutgoing(tx: Tx, rows: Rows): Phase {
    var outgoing := Find(rows, tx.self, tx.other);
    if tx.request.SendRequest? then
      if outgoing.Some? then Done(Failed(FriendshipAlreadyExists)) else CountOutgoing
    else if outgoing.None? || !outgoing.value.IsPending() then Done(Failed(FriendRequestNotFound))
    else Commit(DropPending(tx.self, tx.other))
  }

  function AfterCountOutgoing(tx: Tx, rows: Rows): Phase {
    if |Out(rows, tx.self)| >= MAX_OUTGOING then Done(Failed(FriendshipLimitExceeded))
    else FindIncoming
  }

  function AfterFindIncoming(tx: Tx, rows: Rows, now: int): Phase {
    var incoming := Find(rows, tx.other, tx.self);
    match tx.request
    case SendRequest =>
      if incoming.Some? then
        if incoming.value.IsPending() then AcceptMutual(incoming.value, tx.self, tx.other, now)
        else Done(Failed(FriendshipAlreadyExists))
      else (match NewFriendRequest(tx.self, tx.other, now)
            case Err(_) => Done(Failed(InvalidFriendRequest))
            case Ok(row) => Commit(SaveRequest(row)))
    case AcceptRequest =>
      if incoming.None? || !incoming.value.IsPending() then Done(Failed(FriendRequestNotFound))
      else AcceptMutual(incoming.value, tx.self, tx.other, now)
    case _ =>
      if incoming.None? || !incoming.value.IsPending() then Done(Failed(FriendRequestNotFound))
      else Commit(DropPending(tx.other, tx.self))
  }

  predicate IsKnownAccountType(accountType: int) { 1 <= accountType <= 4 }

  /** What changing a target's account type answers; None is success. */
  function ChangeAccountTypeError(target: UserId, current: int, requester: UserId, accountType: int)
    : Option<Failure>
  {
    if !IsKnownAccountType(accountType) then Some(InvalidAccountType)
    else if target == requester && current == ADMIN && accountType != ADMIN then Some(CannotDemoteOwnAdmin)
    else None
  }

  /** Administrators need their account type; who deletes their own account has signed in again,
      and fails like an interrupted transaction otherwise. */
  function AfterCheckRequester(tx: Tx, users: Users): Phase {
    if tx.request.DeleteOwnAccount? then Commit(EraseUser(tx.self))
    else if tx.self !in users || users[tx.self] != ADMIN then Done(Failed(AdminRequired))
    else if tx.other !in users then Done(Failed(UserNotFound))
    else match tx.request
      case ChangePermission(accountType) =>
        if users[tx.other] == accountType then Commit(Nothing)
        else (match ChangeAccountTypeError(tx.other, users[tx.other], tx.self, accountType)
              case Some(failure) => Done(Failed(failure))
              case None => Commit(SaveAccountType(tx.other, users[tx.other], accountType)))
      case _ => Commit(EraseUser(tx.other))
  }

  // ---------- steps ----------

  function Released(owner: map<UserId, TxId>, t: TxId): map<UserId, TxId> {
    map u | u in owner && owner[u] != t :: owner[u]
  }

  function Goto(s: State, t: TxId, phase: Phase): State
    requires t in s.txs
  {
    s.(txs := s.txs[t := s.txs[t].(phase := phase)],
       owner := if phase.Done? then Released(s.owner, t) else s.owner)
  }

  /** A transaction is blocked only while another one holds the row it wants. */
  predicate CanStep(s: State, t: TxId) {
    && t in s.txs
    && !s.txs[t].phase.Done?
    && (s.txs[t].phase.Locking? ==>
          s.txs[t].phase.taken < |LockPlan(s.txs[t])|
          && LockPlan(s.txs[t])[s.txs[t].phase.taken] !in s.owner)
  }

  function TakeLock(s: State, t: TxId): State
    requires CanStep(s, t) && s.txs[t].phase.Locking?
  {
    var tx := s.txs[t];
    var id := LockPlan(tx)[tx.phase.taken];
    if id !in s.users then Goto(s, t, Done(Failed(MissingUser(tx, id))))
    else
      var phase := if tx.phase.taken + 1 == |LockPlan(tx)|
                   then AfterLocks(tx.request) else Locking(tx.phase.taken + 1);
      Goto(s, t, phase).(owner := s.owner[id := t])
  }

  function CommitWrites(s: State, t: TxId): State
    requires t in s.txs && s.txs[t].phase.Commit?
  {
    match s.txs[t].phase.writes
    case Nothing => Goto(s, t, Done(Committed))
    case SaveRequest(row) =>
      Goto(s, t, Done(Committed)).(rows := Save(s.rows, row))
    case SaveMutual(incoming, outgoing) =>
      Goto(s, t, Done(Committed)).(rows := Save(Save(s.rows, incoming), outgoing))
    case DropPending(user, friend) =>
      Goto(s, t, Done(Committed)).(rows := DeletePending(s.rows, user, friend))
    case SaveAccountType(user, expected, accountType) =>
      if user in s.users && s.users[user] == expected
      then Goto(s, t, Done(Committed)).(users := s.users[user := accountType])
      else Goto(s, t, Done(Failed(UserConflict)))
    case EraseUser(user) =>
      if user in s.users
      then Goto(s, t, Done(Committed)).(users := s.users - {user}, rows := Cascade(s.rows, user))
      else Goto(s, t, Done(Failed(UserNotFound)))
  }

  function TxNext(s: State, t: TxId, now: int): State
    requires CanStep(s, t)
  {
    var tx := s.txs[t];
    match tx.phase
    case Locking(_) => TakeLock(s, t)
    case FindOutgoing => Goto(s, t, AfterFindOutgoing(tx, s.rows))
    case CountOutgoing => Goto(s, t, AfterCountOutgoing(tx, s.rows))
    case FindIncoming => Goto(s, t, AfterFindIncoming(tx, s.rows, now))
    case CheckRequester => Goto(s, t, AfterCheckRequester(tx, s.users))
    case Commit(_) => CommitWrites(s, t)
    case Done(_) => s
  }

  /** The check made before a transaction starts. The other user's ID comes from an earlier,
      possibly outdated, lookup by name. */
  predicate MayBegin(tx: Tx) {
    tx.phase == Locking(0) && UsersFit(tx)
  }

  /** Only permissions can be changed by users of themselves or of others. */
  predicate UsersFit(tx: Tx) {
    match tx.request
    case ChangePermission(_) => true
    case DeleteOwnAccount => tx.self == tx.other
    case _ => tx.self != tx.other
  }

  datatype Action =
    | Begin(t: TxId, tx: Tx)
    | Advance(t: TxId, now: int)
    | Abort(t: TxId)
    | Remove(user: UserId, friend: UserId)
    | Register(user: UserId, accountType: int)

  ghost predicate Enabled(s: State, act: Action) {
    match act
    case Begin(t, tx) => t !in s.txs && MayBegin(tx)
    case Advance(t, _) => CanStep(s, t)
    case Abort(t) => t in s.txs && !s.txs[t].phase.Done?
    case Remove(user, friend) => user != friend
    case Register(user, _) => user !in s.users
  }

  ghost function Next(s: State, act: Action): State
    requires Enabled(s, act)
  {
    match act
    case Begin(t, tx) => s.(txs := s.txs[t := tx])
    case Advance(t, now) => TxNext(s, t, now)
    case Abort(t) => Goto(s, t, Done(Failed(Interrupted)))
    case Remove(user, friend) => s.(rows := DeletePair(s.rows, user, friend))
    case Register(user, accountType) => s.(users := s.users[user := accountType])
  }

  /** A run: the state before each action, and after the last. */
  ghost predicate IsRun(states: seq<State>, acts: seq<Action>) {
    && |states| == |acts| + 1
    && forall k :: 0 <= k < |acts| ==>
         Enabled(states[k], acts[k]) && states[k + 1] == Next(states[k], acts[k])
  }
}
