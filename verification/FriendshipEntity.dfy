/** One direction of a friendship: the row, its state machine and its validation. Instants
    are integers and 0 is the unset instant. */
module FriendshipEntity {
  import opened Common

  const PENDING := 1
  const ACCEPTED := 2
  const BLOCKED := 3

  datatype FriendshipError =
    | NonPositiveUser
    | NonPositiveFriend
    | SelfFriendship
    | PendingWithAcceptedAt
    | AcceptedWithoutAcceptedAt
    | InvalidStatus
    | RequestedAtMissing
    | CannotBeAccepted

  datatype Row = Row(
    userId: int,
    friendUserId: int,
    statusId: int,
    requestedAt: int,
    acceptedAt: Option<int>,
    createdAt: int,
    updatedAt: int)
  {
    function Validate(): Option<FriendshipError> {
      if userId <= 0 then Some(NonPositiveUser)
      else if friendUserId <= 0 then Some(NonPositiveFriend)
      else if userId == friendUserId then Some(SelfFriendship)
      else if statusId == PENDING && acceptedAt != None then Some(PendingWithAcceptedAt)
      else if statusId == ACCEPTED && acceptedAt == None then Some(AcceptedWithoutAcceptedAt)
      else if statusId !in {PENDING, ACCEPTED, BLOCKED} then Some(InvalidStatus)
      else if requestedAt == 0 then Some(RequestedAtMissing)
      else None
    }

    predicate IsPending() { statusId == PENDING }

    predicate IsAccepted() { statusId == ACCEPTED }

    /** The fields after `Accept`; they change even when the final validation fails. */
    function AfterAccept(at: int): Row {
      if statusId == PENDING || statusId == ACCEPTED
      then this.(statusId := ACCEPTED, acceptedAt := Some(at), updatedAt := at)
      else this
    }

    function AcceptError(at: int): Option<FriendshipError> {
      if statusId == PENDING || statusId == ACCEPTED
      then AfterAccept(at).Validate()
      else Some(CannotBeAccepted)
    }
  }

  function NewFriendRequest(userId: int, friendUserId: int, now: int): Result<Row, FriendshipError> {
    var row := Row(userId, friendUserId, PENDING, now, None, now, now);
    match row.Validate()
    case None => Ok(row)
    case Some(e) => Err(e)
  }

  function NewAcceptedFriendship(userId: int, friendUserId: int, requestedAt: int, acceptedAt: int)
    : Result<Row, FriendshipError>
  {
    var row := Row(userId, friendUserId, ACCEPTED, requestedAt, Some(acceptedAt), requestedAt, acceptedAt);
    match row.Validate()
    case None => Ok(row)
    case Some(e) => Err(e)
  }

  /** The entity object a repository hands out. */
  class Friendship {
    const userId: int
    const friendUserId: int
    var statusId: int
    var requestedAt: int
    var acceptedAt: Option<int>
    var createdAt: int
    var updatedAt: int

    constructor (row: Row)
      ensures Value() == row
    {
      userId := row.userId;
      friendUserId := row.friendUserId;
      statusId := row.statusId;
      requestedAt := row.requestedAt;
      acceptedAt := row.acceptedAt;
      createdAt := row.createdAt;
      updatedAt := row.updatedAt;
    }

    function Value(): Row
      reads this
    {
      Row(userId, friendUserId, statusId, requestedAt, acceptedAt, createdAt, updatedAt)
    }

    method Accept(at: int) returns (error: Option<FriendshipError>)
      modifies this
      ensures Value() == old(Value()).AfterAccept(at)
      ensures error == old(Value()).AcceptError(at)
      ensures Value() == if old(statusId) in {1, 2}
                         then old(Value()).(statusId := 2, acceptedAt := Some(at), updatedAt := at) else old(Value())
      ensures error.None? <==>
        old(statusId) in {1, 2} && userId > 0 && friendUserId > 0 && userId != friendUserId && requestedAt != 0
    {
      if statusId != PENDING && statusId != ACCEPTED {
        return Some(CannotBeAccepted);
      }
      statusId := ACCEPTED;
      acceptedAt := Some(at);
      updatedAt := at;
      error := Value().Validate();
    }
  }
}
