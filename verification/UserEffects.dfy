/** What the operations on users and friendships leave in the store, row by row. A row's status is
    1 while it is pending and 2 once it is accepted. */
module UserEffects {
  import opened Common
  import opened FriendshipEntity
  import opened UserTransactions

  /** The user columns of a row are its key. */
  ghost predicate Keyed(rows: Rows) {
    forall k :: k in rows ==> rows[k].userId == k.0 && rows[k].friendUserId == k.1
  }

  /** The users that rows of this user lead to. */
  ghost function Active(rows: Rows, user: UserId): set<UserId> {
    set k | k in rows && k.0 == user && rows[k].statusId in {1, 2} :: k.1
  }

  ghost predicate Pending(rows: Rows, from: UserId, to: UserId) {
    (from, to) in rows && rows[(from, to)].statusId == 1
  }

  /** All rows but these are as they were, and no other rows are there. */
  ghost predicate OthersUnchanged(before: Rows, after: Rows, keys: set<(UserId, UserId)>) {
    && (forall k :: k in before && k !in keys ==> k in after && after[k] == before[k])
    && (forall k :: k in after && k !in keys ==> k in before)
  }

  /** Both directions are accepted at the time, and keep the time of the request; all else stays. */
  ghost predicate BothAccepted(before: Rows, after: Rows, requester: UserId, accepter: UserId, at: int)
    requires (requester, accepter) in before
  {
    var there, back := (requester, accepter), (accepter, requester);
    && OthersUnchanged(before, after, {there, back}) && there in after && back in after
    && after[there] == before[there].(statusId := 2, acceptedAt := Some(at), updatedAt := at)
    && after[back] == Row(accepter, requester, 2, before[there].requestedAt, Some(at),
                          if back in before then before[back].createdAt else before[there].requestedAt, at)
  }

  /** What sending a request to another user does. */
  ghost predicate Sent(
    users: Users, before: Rows, after: Rows, sender: UserId, target: UserId, now: int, outcome: Outcome)
  {
    var there, back := (sender, target), (target, sender);
    if sender !in users || target !in users then outcome == Failed(UserNotFound) && after == before
    else if there in before then outcome == Failed(FriendshipAlreadyExists) && after == before
    else if |Active(before, sender)| >= 100 then outcome == Failed(FriendshipLimitExceeded) && after == before
    else if Pending(before, target, sender) then
      if sender > 0 && target > 0 && before[back].requestedAt != 0
      then outcome == Committed && BothAccepted(before, after, target, sender, now)
      else outcome == Failed(InvalidFriendRequest) && after == before
    else if back in before then outcome == Failed(FriendshipAlreadyExists) && after == before
    else if sender > 0 && target > 0 && now != 0 then
      outcome == Committed && after == before[there := Row(sender, target, 1, now, None, now, now)]
    else outcome == Failed(InvalidFriendRequest) && after == before
  }

  /** What accepting the request of another user does. */
  ghost predicate Accepted(
    users: Users, before: Rows, after: Rows, accepter: UserId, requester: UserId, now: int, outcome: Outcome)
  {
    if accepter !in users || requester !in users then outcome == Failed(UserNotFound) && after == before
    else if |Active(before, accepter)| >= 100 then outcome == Failed(FriendshipLimitExceeded) && after == before
    else if !Pending(before, requester, accepter) then outcome == Failed(FriendRequestNotFound) && after == before
    else if accepter > 0 && requester > 0 && before[(requester, accepter)].requestedAt != 0 then
      outcome == Committed && BothAccepted(before, after, requester, accepter, now)
    else outcome == Failed(InvalidFriendRequest) && after == before
  }

  /** What withdrawing or turning down a request does: exactly the pending row goes. */
  ghost predicate Dropped(
    users: Users, before: Rows, after: Rows, from: UserId, to: UserId, outcome: Outcome)
  {
    if from !in users || to !in users then outcome == Failed(UserNotFound) && after == before
    else if !Pending(before, from, to) then outcome == Failed(FriendRequestNotFound) && after == before
    else outcome == Committed && after == before - {(from, to)}
  }

  /** The account type a word stands for. */
  ghost predicate Means(permission: string, accountType: int) {
    || (permission == "PLAYER" && accountType == 1) || (permission == "EDITOR" && accountType == 2)
    || (permission == "ADMIN" && accountType == 3) || (permission == "EXTDEV" && accountType == 4)
  }

  /** What changing a permission does once the locks are asked for: of several missing users the one
      with the lower ID decides. */
  ghost predicate PermissionChanged(
    before: Users, after: Users, requester: UserId, target: UserId, accountType: int, outcome: Outcome)
  {
    if requester !in before && (target in before || requester <= target) then
      outcome == Failed(AdminRequired) && after == before
    else if target !in before then outcome == Failed(UserNotFound) && after == before
    else if before[requester] != 3 then outcome == Failed(AdminRequired) && after == before
    else if target == requester && accountType != 3 then
      outcome == Failed(CannotDemoteOwnAdmin) && after == before
    else outcome == Committed && after == before[target := accountType]
  }

  /** No row of either direction is left of the user, and all others are. */
  ghost predicate UserErased(
    users: Users, rows: Rows, afterUsers: Users, afterRows: Rows, user: UserId)
  {
    && afterUsers == users - {user}
    && (forall k :: k in afterRows <==> k in rows && k.0 != user && k.1 != user)
    && (forall k :: k in afterRows ==> afterRows[k] == rows[k])
  }

  /** What the deletion of another user by an administrator does. */
  ghost predicate UserDeleted(
    users: Users, rows: Rows, afterUsers: Users, afterRows: Rows, requester: UserId, target: UserId, outcome: Outcome)
  {
    if requester !in users && (target in users || requester <= target) then
      outcome == Failed(AdminRequired) && afterUsers == users && afterRows == rows
    else if target !in users then outcome == Failed(UserNotFound) && afterUsers == users && afterRows == rows
    else if users[requester] != 3 then outcome == Failed(AdminRequired) && afterUsers == users && afterRows == rows
    else outcome == Committed && UserErased(users, rows, afterUsers, afterRows, target)
  }

  lemma {:induction false} ActiveIsOut(rows: Rows, user: UserId)
    ensures Active(rows, user) == Out(rows, user)
  {
  }
}
