/**
 * The event endpoints of the back end: creating, listing, updating and
 * deleting events, and registering, listing and unregistering attendees.
 * As for clubs, each handler has a specification function over the tables
 * and a method on a `Db` proved to follow it.
 */
module EventRouter {
  import opened Wrappers
  import opened Roles
  import opened Text
  import opened EventSchema
  import opened Tables

  const EVENT_NOT_FOUND: string := "Event not found"
  const USER_TO_REGISTER_NOT_FOUND: string := "User to register not found"
  const ALREADY_REGISTERED: string := "User is already registered for this event"
  const ATTENDANCE_NOT_FOUND: string := "Attendance record not found"
  const CANNOT_CREATE: string := "Not authorized to create events for this club"
  const CANNOT_UPDATE: string := "Not authorized to update this event"
  const CANNOT_DELETE: string := "Not authorized to delete this event"
  const CANNOT_REGISTER: string := "Not authorized to register for this event"
  const CANNOT_VIEW: string := "Not authorized to view event attendees"
  const CANNOT_UNREGISTER: string := "Not authorized to unregister for this event"

  /** f"Club with id {club_id} not found" */
  function ClubNotFound(clubId: int): string
  {
    "Club with id " + IntToString(clubId) + " not found"
  }

  // ---------------------------------------------------------------------
  // create_event

  /** `newId` is the id the database assigns to the new row. */
  function CreateEvent(t: Tables, actor: User, e: Event, newId: int): (res: (Outcome<(int, Event)>, Tables))
    requires newId !in t.events
    ensures res.0.Ok? <==> e.clubId in t.clubs && CanManage(t, actor, e.clubId)
    ensures e.clubId !in t.clubs ==> res.0 == Err(HttpError(404, ClubNotFound(e.clubId)))
    ensures e.clubId in t.clubs && !CanManage(t, actor, e.clubId) ==> res.0 == Err(HttpError(403, CANNOT_CREATE))
    ensures res.0.Err? ==> res.1 == t
    ensures res.0.Ok? ==>
      && res.0.value == (newId, e)
      && res.1 == t.(events := res.1.events)
      && res.1.events.Keys == t.events.Keys + {newId}
      && |res.1.events| == |t.events| + 1
      && (forall id :: id in t.events ==> res.1.events[id] == t.events[id])
  {
    if e.clubId !in t.clubs then (Err(HttpError(404, ClubNotFound(e.clubId))), t)
    else if !CanManage(t, actor, e.clubId) then (Err(HttpError(403, CANNOT_CREATE)), t)
    else (Ok((newId, e)), t.(events := t.events[newId := e]))
  }

  method CreateEventHandler(db: Db, actor: User, event: Event, newId: int) returns (r: Outcome<(int, Event)>)
    requires newId !in db.events
    modifies db
    ensures (r, db.State()) == CreateEvent(old(db.State()), actor, event, newId)
  {
    if event.clubId !in db.clubs {
      return Err(HttpError(404, ClubNotFound(event.clubId)));
    }
    var allowed := db.IsAdminOrManager(actor, event.clubId);
    if !allowed {
      return Err(HttpError(403, CANNOT_CREATE));
    }
    db.events := db.events[newId := event];
    return Ok((newId, event));
  }

  /** The message of the missing-club error names the club, and different
      clubs give different messages. */
  lemma ClubNotFoundNamesClub(a: int, b: int)
    ensures ClubNotFound(a) == ClubNotFound(b) <==> a == b
  {
    if ClubNotFound(a) == ClubNotFound(b) {
      var p := "Club with id ";
      var q := " not found";
      assert IntToString(a) == ClubNotFound(a)[|p|..|ClubNotFound(a)| - |q|];
      assert IntToString(b) == ClubNotFound(b)[|p|..|ClubNotFound(b)| - |q|];
      IntToStringInjective(a, b);
    }
  }

  // ---------------------------------------------------------------------
  // get_all_events

  /** The filters of the query: `status` and `club_id` filter only when
      truthy, so a `club_id` of 0 does not filter. */
  predicate Selected(e: Event, status: Option<EventStatus>, clubId: Option<int>)
  {
    (status.Some? ==> e.status == status.value) && (clubId.Some? && clubId.value != 0 ==> e.clubId == clubId.value)
  }

  /** The rows, in the order the database returns them, that pass the filters. */
  function Matching(rows: seq<(int, Event)>, status: Option<EventStatus>, clubId: Option<int>): (r: seq<(int, Event)>)
    ensures forall x :: x in r <==> x in rows && Selected(x.1, status, clubId)
    ensures |r| <= |rows|
    decreases |rows|
  {
    if |rows| == 0 then []
    else
      var init := rows[..|rows| - 1];
      var last := rows[|rows| - 1];
      assert rows == init + [last];
      Matching(init, status, clubId) + (if Selected(last.1, status, clubId) then [last] else [])
  }

  /** `.offset(skip).limit(limit)`. */
  function Page<T>(s: seq<T>, skip: nat, limit: nat): (r: seq<T>)
    ensures |r| == if skip >= |s| then 0 else if limit < |s| - skip then limit else |s| - skip
    ensures forall i :: 0 <= i < |r| ==> r[i] == s[skip + i]
  {
    if skip >= |s| then [] else if limit < |s| - skip then s[skip..skip + limit] else s[skip..]
  }

  function GetAllEvents(rows: seq<(int, Event)>, skip: nat, limit: nat, status: Option<EventStatus>, clubId: Option<int>)
    : (r: seq<(int, Event)>)
    ensures |r| <= limit
    ensures forall x :: x in r ==> x in rows && Selected(x.1, status, clubId)
  {
    Page(Matching(rows, status, clubId), skip, limit)
  }

  /** Without skipping, a page holds every matching row as long as the limit
      allows, and the first `limit` of them otherwise. */
  lemma FirstPage(rows: seq<(int, Event)>, limit: nat, status: Option<EventStatus>, clubId: Option<int>)
    ensures var m := Matching(rows, status, clubId);
      GetAllEvents(rows, 0, limit, status, clubId) == if |m| <= limit then m else m[..limit]
  {
  }

  /** Consecutive pages do not overlap and together make up the matching rows. */
  lemma {:induction false} PagesPartition(rows: seq<(int, Event)>, skip: nat, limit: nat,
                                          status: Option<EventStatus>, clubId: Option<int>)
    ensures var m := Matching(rows, status, clubId);
      skip + limit <= |m| ==>
        GetAllEvents(rows, skip, limit, status, clubId) + GetAllEvents(rows, skip + limit, |m|, status, clubId)
          == m[skip..]
  {
    var m := Matching(rows, status, clubId);
    if skip + limit <= |m| {
      var a := GetAllEvents(rows, skip, limit, status, clubId);
      var b := GetAllEvents(rows, skip + limit, |m|, status, clubId);
      assert a == m[skip..skip + limit];
      assert b == m[skip + limit..];
    }
  }

  // ---------------------------------------------------------------------
  // update_event_by_id

  /** Permission is tested on the club the event belongs to before the
      update, even when the update moves it to another club. */
  function UpdateEvent(t: Tables, actor: User, eventId: int, u: EventUpdate): (res: (Outcome<Event>, Tables))
    ensures res.0.Ok? <==> eventId in t.events && CanManage(t, actor, t.events[eventId].clubId)
    ensures eventId !in t.events ==> res.0 == Err(HttpError(404, EVENT_NOT_FOUND))
    ensures eventId in t.events && !CanManage(t, actor, t.events[eventId].clubId) ==>
      res.0 == Err(HttpError(403, CANNOT_UPDATE))
    ensures res.0.Err? ==> res.1 == t
    ensures res.0.Ok? ==>
      && res.1 == t.(events := res.1.events)
      && res.1.events.Keys == t.events.Keys
      && (forall id :: id in t.events && id != eventId ==> res.1.events[id] == t.events[id])
      && res.1.events[eventId] == res.0.value
      && res.0.value == Updated(t.events[eventId], u)
  {
    if eventId !in t.events then (Err(HttpError(404, EVENT_NOT_FOUND)), t)
    else if !CanManage(t, actor, t.events[eventId].clubId) then (Err(HttpError(403, CANNOT_UPDATE)), t)
    else
      var event := Updated(t.events[eventId], u);
      (Ok(event), t.(events := t.events[eventId := event]))
  }

  method UpdateEventById(db: Db, actor: User, eventId: int, eventUpdate: EventUpdate) returns (r: Outcome<Event>)
    modifies db
    ensures (r, db.State()) == UpdateEvent(old(db.State()), actor, eventId, eventUpdate)
  {
    if eventId !in db.events {
      return Err(HttpError(404, EVENT_NOT_FOUND));
    }
    var targetClubId := db.events[eventId].clubId;
    var allowed := db.IsAdminOrManager(actor, targetClubId);
    if !allowed {
      return Err(HttpError(403, CANNOT_UPDATE));
    }
    var event := db.events[eventId];
    var updateData := Dump(eventUpdate);
    for i := 0 to |updateData|
      invariant event == SetAttrs(db.events[eventId], updateData[..i])
    {
      assert updateData[..i + 1][..i] == updateData[..i];
      event := SetAttr(event, updateData[i]);
    }
    assert updateData[..|updateData|] == updateData;
    SetAttrsOfDump(db.events[eventId], eventUpdate);
    db.events := db.events[eventId := event];
    return Ok(event);
  }

  /** A manager of the event's club may move the event to a club they do not
      manage; the permission on the target club is never tested. */
  lemma ManagerMayMoveEventAnywhere(t: Tables, actor: User, eventId: int, u: EventUpdate)
    requires eventId in t.events && IsManager(t, t.events[eventId].clubId, actor.id)
    requires u.clubId.Set?
    ensures UpdateEvent(t, actor, eventId, u).0.Ok?
    ensures UpdateEvent(t, actor, eventId, u).1.events[eventId].clubId == u.clubId.value
  {
    UpdateProperties(t.events[eventId], u);
  }

  // ---------------------------------------------------------------------
  // delete_event_by_id

  /** The attendance rows of every event but `eventId`. */
  function WithoutEvent(a: set<(int, int)>, eventId: int): (r: set<(int, int)>)
    ensures forall k :: k in r <==> k in a && k.0 != eventId
  {
    set k | k in a && k.0 != eventId
  }

  /** Deleting an event also deletes its attendance rows, which the ORM
      removes from the association table. */
  function DeleteEvent(t: Tables, actor: User, eventId: int): (res: (Outcome<()>, Tables))
    ensures res.0.Ok? <==> eventId in t.events && CanManage(t, actor, t.events[eventId].clubId)
    ensures eventId !in t.events ==> res.0 == Err(HttpError(404, EVENT_NOT_FOUND))
    ensures eventId in t.events && !CanManage(t, actor, t.events[eventId].clubId) ==>
      res.0 == Err(HttpError(403, CANNOT_DELETE))
    ensures res.0.Err? ==> res.1 == t
    ensures res.0.Ok? ==>
      && res.1.events.Keys == t.events.Keys - {eventId}
      && (forall id :: id in res.1.events ==> res.1.events[id] == t.events[id])
      && (forall k :: k in res.1.attendance <==> k in t.attendance && k.0 != eventId)
      && res.1.users == t.users && res.1.clubs == t.clubs && res.1.memberships == t.memberships
  {
    if eventId !in t.events then (Err(HttpError(404, EVENT_NOT_FOUND)), t)
    else if !CanManage(t, actor, t.events[eventId].clubId) then (Err(HttpError(403, CANNOT_DELETE)), t)
    else (Ok(()), t.(events := t.events - {eventId}, attendance := WithoutEvent(t.attendance, eventId)))
  }

  method DeleteEventById(db: Db, actor: User, eventId: int) returns (r: Outcome<()>)
    modifies db
    ensures (r, db.State()) == DeleteEvent(old(db.State()), actor, eventId)
  {
    if eventId !in db.events {
      return Err(HttpError(404, EVENT_NOT_FOUND));
    }
    var allowed := db.IsAdminOrManager(actor, db.events[eventId].clubId);
    if !allowed {
      return Err(HttpError(403, CANNOT_DELETE));
    }
    db.events := db.events - {eventId};
    db.attendance := WithoutEvent(db.attendance, eventId);
    return Ok(());
  }

  // ---------------------------------------------------------------------
  // register_user_for_event, get_event_attendees, unregister_user_from_event

  /** Admin, the user themself, or a manager of the event's club. */
  predicate MayActFor(t: Tables, actor: User, eventId: int, userId: int)
    requires eventId in t.events
  {
    IsAdmin(actor) || actor.id == userId || IsManager(t, t.events[eventId].clubId, actor.id)
  }

  function Register(t: Tables, actor: User, eventId: int, userId: int): (res: (Outcome<()>, Tables))
    ensures res.0.Ok? <==>
      eventId in t.events && userId in t.users && MayActFor(t, actor, eventId, userId)
      && (eventId, userId) !in t.attendance
    ensures eventId !in t.events ==> res.0 == Err(HttpError(404, EVENT_NOT_FOUND))
    ensures eventId in t.events && userId !in t.users ==> res.0 == Err(HttpError(404, USER_TO_REGISTER_NOT_FOUND))
    ensures eventId in t.events && userId in t.users && !MayActFor(t, actor, eventId, userId) ==>
      res.0 == Err(HttpError(403, CANNOT_REGISTER))
    ensures (eventId in t.events && userId in t.users && MayActFor(t, actor, eventId, userId)
             && (eventId, userId) in t.attendance) ==> res.0 == Err(HttpError(400, ALREADY_REGISTERED))
    ensures res.0.Err? ==> res.1 == t
    ensures res.0.Ok? ==>
      res.1 == t.(attendance := t.attendance + {(eventId, userId)}) && |res.1.attendance| == |t.attendance| + 1
  {
    if eventId !in t.events then (Err(HttpError(404, EVENT_NOT_FOUND)), t)
    else if userId !in t.users then (Err(HttpError(404, USER_TO_REGISTER_NOT_FOUND)), t)
    else if !MayActFor(t, actor, eventId, userId) then (Err(HttpError(403, CANNOT_REGISTER)), t)
    else if (eventId, userId) in t.attendance then (Err(HttpError(400, ALREADY_REGISTERED)), t)
    else (Ok(()), t.(attendance := t.attendance + {(eventId, userId)}))
  }

  /** The permission test of the attendance handlers: the membership lookup
      happens only for someone who is neither the admin nor the user. */
  method SelfAdminOrManager(db: Db, actor: User, eventId: int, userId: int) returns (allowed: bool)
    requires eventId in db.events
    ensures allowed <==> MayActFor(db.State(), actor, eventId, userId)
  {
    var isSaoAdmin := actor.role == SAO_ADMIN;
    var isSelf := actor.id == userId;
    var isClubManager := false;
    if !(isSaoAdmin || isSelf) {
      var clubId := db.events[eventId].clubId;
      if (clubId, actor.id) in db.memberships && db.memberships[(clubId, actor.id)] == MANAGER {
        isClubManager := true;
      }
    }
    allowed := isSaoAdmin || isClubManager || isSelf;
  }

  method RegisterUserForEvent(db: Db, actor: User, eventId: int, userId: int) returns (r: Outcome<()>)
    modifies db
    ensures (r, db.State()) == Register(old(db.State()), actor, eventId, userId)
  {
    if eventId !in db.events {
      return Err(HttpError(404, EVENT_NOT_FOUND));
    }
    if userId !in db.users {
      return Err(HttpError(404, USER_TO_REGISTER_NOT_FOUND));
    }
    var allowed := SelfAdminOrManager(db, actor, eventId, userId);
    if !allowed {
      return Err(HttpError(403, CANNOT_REGISTER));
    }
    if (eventId, userId) in db.attendance {
      return Err(HttpError(400, ALREADY_REGISTERED));
    }
    db.attendance := db.attendance + {(eventId, userId)};
    return Ok(());
  }

  /** Only the admin and the managers of the event's club see the attendees. */
  function Attendees(t: Tables, actor: User, eventId: int): (r: Outcome<set<int>>)
    ensures r.Ok? <==> eventId in t.events && CanManage(t, actor, t.events[eventId].clubId)
    ensures eventId !in t.events ==> r == Err(HttpError(404, EVENT_NOT_FOUND))
    ensures eventId in t.events && !CanManage(t, actor, t.events[eventId].clubId) ==>
      r == Err(HttpError(403, CANNOT_VIEW))
    ensures r.Ok? ==> forall u :: u in r.value <==> (eventId, u) in t.attendance && u in t.users
  {
    if eventId !in t.events then Err(HttpError(404, EVENT_NOT_FOUND))
    else if !CanManage(t, actor, t.events[eventId].clubId) then Err(HttpError(403, CANNOT_VIEW))
    else Ok(set k | k in t.attendance && k.0 == eventId && k.1 in t.users :: k.1)
  }

  method GetEventAttendees(db: Db, actor: User, eventId: int) returns (r: Outcome<set<int>>)
    ensures r == Attendees(db.State(), actor, eventId)
  {
    if eventId !in db.events {
      return Err(HttpError(404, EVENT_NOT_FOUND));
    }
    var allowed := db.IsAdminOrManager(actor, db.events[eventId].clubId);
    if !allowed {
      return Err(HttpError(403, CANNOT_VIEW));
    }
    return Ok(set k | k in db.attendance && k.0 == eventId && k.1 in db.users :: k.1);
  }

  /** Being registered for an event does not let one see who else is. */
  lemma AttendeeCannotViewAttendees(t: Tables, actor: User, eventId: int)
    requires eventId in t.events && (eventId, actor.id) in t.attendance
    requires !IsAdmin(actor) && !IsManager(t, t.events[eventId].clubId, actor.id)
    ensures Attendees(t, actor, eventId) == Err(HttpError(403, CANNOT_VIEW))
  {
  }

  function Unregister(t: Tables, actor: User, eventId: int, userId: int): (res: (Outcome<()>, Tables))
    ensures res.0.Ok? <==>
      eventId in t.events && MayActFor(t, actor, eventId, userId) && (eventId, userId) in t.attendance
    ensures eventId !in t.events ==> res.0 == Err(HttpError(404, EVENT_NOT_FOUND))
    ensures eventId in t.events && !MayActFor(t, actor, eventId, userId) ==>
      res.0 == Err(HttpError(403, CANNOT_UNREGISTER))
    ensures eventId in t.events && MayActFor(t, actor, eventId, userId) && (eventId, userId) !in t.attendance ==>
      res.0 == Err(HttpError(404, ATTENDANCE_NOT_FOUND))
    ensures res.0.Err? ==> res.1 == t
    ensures res.0.Ok? ==>
      res.1 == t.(attendance := t.attendance - {(eventId, userId)}) && |res.1.attendance| == |t.attendance| - 1
  {
    if eventId !in t.events then (Err(HttpError(404, EVENT_NOT_FOUND)), t)
    else if !MayActFor(t, actor, eventId, userId) then (Err(HttpError(403, CANNOT_UNREGISTER)), t)
    else if (eventId, userId) !in t.attendance then (Err(HttpError(404, ATTENDANCE_NOT_FOUND)), t)
    else (Ok(()), t.(attendance := t.attendance - {(eventId, userId)}))
  }

  method UnregisterUserFromEvent(db: Db, actor: User, eventId: int, userId: int) returns (r: Outcome<()>)
    modifies db
    ensures (r, db.State()) == Unregister(old(db.State()), actor, eventId, userId)
  {
    if eventId !in db.events {
      return Err(HttpError(404, EVENT_NOT_FOUND));
    }
    var allowed := SelfAdminOrManager(db, actor, eventId, userId);
    if !allowed {
      return Err(HttpError(403, CANNOT_UNREGISTER));
    }
    var rowcount := if (eventId, userId) in db.attendance then 1 else 0;
    if rowcount == 0 {
      return Err(HttpError(404, ATTENDANCE_NOT_FOUND));
    }
    db.attendance := db.attendance - {(eventId, userId)};
    return Ok(());
  }

  // ---------------------------------------------------------------------
  // Properties across handlers

  /** Registering and then unregistering, by someone allowed to do both,
      gives back the tables as they were. */
  lemma RegisterThenUnregisterRestores(t: Tables, actor: User, eventId: int, userId: int)
    requires Register(t, actor, eventId, userId).0.Ok?
    ensures var t1 := Register(t, actor, eventId, userId).1;
      Unregister(t1, actor, eventId, userId) == (Ok(()), t)
  {
    var t1 := Register(t, actor, eventId, userId).1;
    assert t1.attendance - {(eventId, userId)} == t.attendance;
  }

  /** Every event handler keeps the foreign keys intact, provided an update
      that moves an event names an existing club. */
  lemma EventHandlersKeepConsistency(t: Tables, actor: User, e: Event, newId: int, eventId: int,
                                     userId: int, u: EventUpdate)
    requires Consistent(t) && newId !in t.events
    requires u.clubId.Set? ==> u.clubId.value in t.clubs
    ensures Consistent(CreateEvent(t, actor, e, newId).1)
    ensures Consistent(UpdateEvent(t, actor, eventId, u).1)
    ensures Consistent(DeleteEvent(t, actor, eventId).1)
    ensures Consistent(Register(t, actor, eventId, userId).1)
    ensures Consistent(Unregister(t, actor, eventId, userId).1)
  {
    UpdateEventConsistent(t, actor, eventId, u);
    DeleteEventConsistent(t, actor, eventId);
    RegisterConsistent(t, actor, eventId, userId);
    UnregisterConsistent(t, actor, eventId, userId);
    CreateEventConsistent(t, actor, e, newId);
  }

  lemma CreateEventConsistent(t: Tables, actor: User, e: Event, newId: int)
    requires Consistent(t) && newId !in t.events
    ensures Consistent(CreateEvent(t, actor, e, newId).1)
  {
  }

  lemma UpdateEventConsistent(t: Tables, actor: User, eventId: int, u: EventUpdate)
    requires Consistent(t)
    requires u.clubId.Set? ==> u.clubId.value in t.clubs
    ensures Consistent(UpdateEvent(t, actor, eventId, u).1)
  {
    if eventId in t.events {
      UpdateProperties(t.events[eventId], u);
    }
  }

  lemma DeleteEventConsistent(t: Tables, actor: User, eventId: int)
    requires Consistent(t)
    ensures Consistent(DeleteEvent(t, actor, eventId).1)
  {
  }

  lemma RegisterConsistent(t: Tables, actor: User, eventId: int, userId: int)
    requires Consistent(t)
    ensures Consistent(Register(t, actor, eventId, userId).1)
  {
  }

  lemma UnregisterConsistent(t: Tables, actor: User, eventId: int, userId: int)
    requires Consistent(t)
    ensures Consistent(Unregister(t, actor, eventId, userId).1)
  {
  }

  /** Stored events stay valid: a created event is valid once its body has
      passed validation, and a valid update keeps an event valid. */
  lemma EventHandlersKeepEventsValid(t: Tables, actor: User, e: Event, newId: int, eventId: int, u: EventUpdate)
    requires forall id :: id in t.events ==> ValidEvent(t.events[id])
    requires newId !in t.events && ValidEvent(e) && ValidEventUpdate(u)
    ensures var t' := CreateEvent(t, actor, e, newId).1; forall id :: id in t'.events ==> ValidEvent(t'.events[id])
    ensures var t' := UpdateEvent(t, actor, eventId, u).1; forall id :: id in t'.events ==> ValidEvent(t'.events[id])
  {
    var (r1, t1) := CreateEvent(t, actor, e, newId);
    if r1.Ok? {
      forall id | id in t1.events ensures ValidEvent(t1.events[id]) {
        if id != newId {
          assert t1.events[id] == t.events[id];
        }
      }
    }
    var (r2, t2) := UpdateEvent(t, actor, eventId, u);
    if r2.Ok? {
      UpdateProperties(t.events[eventId], u);
      forall id | id in t2.events ensures ValidEvent(t2.events[id]) {
        if id != eventId {
          assert t2.events[id] == t.events[id];
        }
      }
    }
  }
}
