/** User lookup by id (Repositories/UserRepository.cs). The user table is a
    map keyed by UserId, the key the store declares for users. */
module UserRepository {
  import opened Ids
  import opened Outcomes
  import opened Entities

  const EmptyUserIdMessage := "User Id cannot be empty."
  const UserNotFoundMessage := "User not found."

  /** Every row sits under its own UserId. */
  predicate WellKeyed(users: map<Guid, User>) {
    forall id :: id in users ==> users[id].userId == id
  }

  /** GetUserByIdAsync: the empty id is refused before the table is read; a
      missing user is NotFound, never null; the user found has the id asked for. */
  function GetUserById(users: map<Guid, User>, userId: Guid): (r: Result<User>)
    requires WellKeyed(users)
    ensures userId == Empty ==> r == Failure(ArgumentNull(EmptyUserIdMessage, "userId"))
    ensures userId != Empty && userId !in users ==> r == Failure(NotFound(UserNotFoundMessage))
    ensures r.Success? <==> userId != Empty && userId in users
    ensures r.Success? ==> r.value.userId == userId && r.value == users[userId]
  {
    if userId == Empty then Failure(ArgumentNull(EmptyUserIdMessage, "userId"))
    else if userId !in users || users[userId].userId == Empty then
      Failure(NotFound(UserNotFoundMessage))
    else Success(users[userId])
  }
}
