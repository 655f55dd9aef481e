/**
 * The database the back-end routers read and write, abstracted as maps and
 * sets: users, clubs and events keyed by id, the `club_memberships` table
 * keyed by its primary key (club, user) and carrying a role, and the
 * `event_attendance` table as a set of its primary keys (event, user).
 * Keying the two association tables by their primary keys makes each
 * (club, user) and (event, user) pair occur at most once.
 *
 * Also here: the error a handler raises, and the permission tests the
 * handlers share.
 */
module Tables {
  import opened Wrappers
  import opened Roles
  import opened ClubSchema
  import opened EventSchema

  datatype ClubRole = MEMBER | MANAGER

  datatype User = User(id: int, name: string, role: UserRole)

  /** An `HTTPException`: a status code and a detail message. */
  datatype HttpError = HttpError(code: int, detail: string)

  type Outcome<T> = Result<T, HttpError>

  datatype Tables = Tables(
    users: map<int, User>,
    clubs: map<int, Club>,
    events: map<int, Event>,
    memberships: map<(int, int), ClubRole>,
    attendance: set<(int, int)>)

  /** The foreign keys hold: memberships name existing clubs and users,
      attendance rows existing events and users, and events existing clubs. */
  predicate Consistent(t: Tables)
  {
    && (forall k :: k in t.memberships ==> k.0 in t.clubs && k.1 in t.users)
    && (forall k :: k in t.attendance ==> k.0 in t.events && k.1 in t.users)
    && (forall id :: id in t.events ==> t.events[id].clubId in t.clubs)
  }

  /** `current_user.role == UserRoleType.SAO_ADMIN`. */
  predicate IsAdmin(actor: User)
  {
    actor.role == SAO_ADMIN
  }

  /** A (club, user, MANAGER) membership row exists. */
  predicate IsManager(t: Tables, clubId: int, userId: int)
  {
    (clubId, userId) in t.memberships && t.memberships[(clubId, userId)] == MANAGER
  }

  /** A (club, user) membership row exists, whatever its role. */
  predicate IsMember(t: Tables, clubId: int, userId: int)
  {
    (clubId, userId) in t.memberships
  }

  /** The test most handlers make: the SAO admin, or a manager of the club. */
  predicate CanManage(t: Tables, actor: User, clubId: int)
  {
    IsAdmin(actor) || IsManager(t, clubId, actor.id)
  }

  /** The session the handlers work on: one field per table. */
  class Db {
    var users: map<int, User>
    var clubs: map<int, Club>
    var events: map<int, Event>
    var memberships: map<(int, int), ClubRole>
    var attendance: set<(int, int)>

    function State(): Tables
      reads this
    {
      Tables(users, clubs, events, memberships, attendance)
    }

    constructor (t: Tables)
      ensures State() == t
    {
      users := t.users;
      clubs := t.clubs;
      events := t.events;
      memberships := t.memberships;
      attendance := t.attendance;
    }

    /** The permission test as the handlers write it: a membership lookup
        for the role MANAGER, made only when the user is not the SAO admin. */
    method IsAdminOrManager(actor: User, clubId: int) returns (allowed: bool)
      ensures allowed <==> CanManage(State(), actor, clubId)
    {
      var isSaoAdmin := actor.role == SAO_ADMIN;
      var isClubManager := false;
      if !isSaoAdmin {
        if (clubId, actor.id) in memberships && memberships[(clubId, actor.id)] == MANAGER {
          isClubManager := true;
        }
      }
      allowed := isSaoAdmin || isClubManager;
    }
  }
}
