/**
 * The user endpoints of the back end: the list of all users, which only the
 * SAO admin may read, and the lookup of one user, which the SAO admin and
 * club managers may make for anyone and everyone else only for themself.
 */
module UserRouter {
  import opened Wrappers
  import opened Roles
  import opened Tables

  const NOT_AUTHORIZED: string := "Not authorized to access this resource"
  const USER_NOT_FOUND: string := "User not found"

  /** The rows of the users table; their order is the database's. */
  function GetAllUsers(users: map<int, User>, actor: User): (r: Outcome<map<int, User>>)
    ensures r.Ok? <==> actor.role == SAO_ADMIN
    ensures r.Ok? ==> r.value == users
    ensures r.Err? ==> r.error == HttpError(403, NOT_AUTHORIZED)
  {
    if actor.role != SAO_ADMIN then Err(HttpError(403, NOT_AUTHORIZED)) else Ok(users)
  }

  /** A user asking for their own id gets their own record, the one the
      session resolved, without a lookup. */
  function GetUserById(users: map<int, User>, actor: User, userId: int): (r: Outcome<User>)
    ensures actor.role in {SAO_ADMIN, CLUB_MANAGER} ==>
      (userId in users ==> r == Ok(users[userId])) && (userId !in users ==> r == Err(HttpError(404, USER_NOT_FOUND)))
    ensures actor.role == STUDENT ==>
      (actor.id == userId ==> r == Ok(actor)) && (actor.id != userId ==> r == Err(HttpError(403, NOT_AUTHORIZED)))
  {
    if actor.role == SAO_ADMIN || actor.role == CLUB_MANAGER then
      if userId in users then Ok(users[userId]) else Err(HttpError(404, USER_NOT_FOUND))
    else if actor.id == userId then Ok(actor)
    else Err(HttpError(403, NOT_AUTHORIZED))
  }

  /** A student sees no other user, and a 404 is only ever given to the
      admin or a club manager. */
  lemma UserAccessRules(users: map<int, User>, actor: User, userId: int)
    ensures GetUserById(users, actor, userId).Ok? && GetUserById(users, actor, userId).value != actor ==>
      actor.role != STUDENT
    ensures GetUserById(users, actor, userId).Err? && GetUserById(users, actor, userId).error.code == 404 ==>
      actor.role != STUDENT && userId !in users
    ensures actor.role == STUDENT ==> GetAllUsers(users, actor).Err?
  {
  }
}
