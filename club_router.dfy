/**
 * The club endpoints of the back end: updating and deleting a club, and
 * adding, listing, re-roling and removing its members. Each handler makes
 * its checks in a fixed order, raising 404, 403 or 400, and on success
 * changes only the rows it names.
 *
 * Each handler has a specification function from the tables before the
 * request to the outcome and the tables after it, and a method that works
 * on a `Db` as the router code does and is proved to follow it.
 */
module ClubRouter {
  import opened Wrappers
  import opened Roles
  import opened ClubSchema
  import opened Tables

  const CLUB_NOT_FOUND: string := "Club not found"
  const USER_TO_ADD_NOT_FOUND: string := "User to add not found"
  const ALREADY_MEMBER: string := "User is already a member of this club"
  const MEMBERSHIP_NOT_FOUND_OR_UNCHANGED: string := "Membership not found or no change in role"
  const MEMBERSHIP_NOT_FOUND: string := "Membership not found"
  const CANNOT_UPDATE: string := "Not authorized to update this club"
  const CANNOT_DELETE: string := "Not authorized to delete this club"
  const CANNOT_ADD: string := "Not authorized to add members to this club"
  const CANNOT_VIEW: string := "Not authorized to view members of this club"
  const CANNOT_CHANGE_ROLE: string := "Not authorized to update member roles in this club"
  const CANNOT_REMOVE: string := "Not authorized to remove this member"
  /** The response to an exception the handler does not catch. */
  const SERVER_ERROR: string := "Internal Server Error"

  /** The memberships of every club but `clubId`. */
  function WithoutClub(m: map<(int, int), ClubRole>, clubId: int): (r: map<(int, int), ClubRole>)
    ensures forall k :: k in r <==> k in m && k.0 != clubId
    ensures forall k :: k in r ==> r[k] == m[k]
  {
    map k | k in m && k.0 != clubId :: m[k]
  }

  // ---------------------------------------------------------------------
  // update_club_by_id

  /** The body has passed `ClubUpdate` validation before the handler runs. */
  function UpdateClub(t: Tables, actor: User, clubId: int, u: ClubUpdate): (res: (Outcome<Club>, Tables))
    ensures res.0.Ok? <==> clubId in t.clubs && CanManage(t, actor, clubId)
    ensures clubId !in t.clubs ==> res.0 == Err(HttpError(404, CLUB_NOT_FOUND))
    ensures clubId in t.clubs && !CanManage(t, actor, clubId) ==> res.0 == Err(HttpError(403, CANNOT_UPDATE))
    ensures res.0.Err? ==> res.1 == t
    ensures res.0.Ok? ==>
      && res.1 == t.(clubs := res.1.clubs)
      && res.1.clubs.Keys == t.clubs.Keys
      && (forall id :: id in t.clubs && id != clubId ==> res.1.clubs[id] == t.clubs[id])
      && res.1.clubs[clubId] == res.0.value
      && res.0.value == Updated(t.clubs[clubId], u)
  {
    if clubId !in t.clubs then (Err(HttpError(404, CLUB_NOT_FOUND)), t)
    else if !CanManage(t, actor, clubId) then (Err(HttpError(403, CANNOT_UPDATE)), t)
    else
      var club := Updated(t.clubs[clubId], u);
      (Ok(club), t.(clubs := t.clubs[clubId := club]))
  }

  method UpdateClubById(db: Db, actor: User, clubId: int, clubUpdate: ClubUpdate) returns (r: Outcome<Club>)
    modifies db
    ensures (r, db.State()) == UpdateClub(old(db.State()), actor, clubId, clubUpdate)
  {
    if clubId !in db.clubs {
      return Err(HttpError(404, CLUB_NOT_FOUND));
    }
    var allowed := db.IsAdminOrManager(actor, clubId);
    if !allowed {
      return Err(HttpError(403, CANNOT_UPDATE));
    }
    var club := db.clubs[clubId];
    var updateData := Dump(clubUpdate);
    for i := 0 to |updateData|
      invariant club == SetAttrs(db.clubs[clubId], updateData[..i])
    {
      assert updateData[..i + 1][..i] == updateData[..i];
      club := SetAttr(club, updateData[i]);
    }
    assert updateData[..|updateData|] == updateData;
    SetAttrsOfDump(db.clubs[clubId], clubUpdate);
    db.clubs := db.clubs[clubId := club];
    return Ok(club);
  }

  /** Stored clubs stay valid under a valid update. */
  lemma UpdateClubKeepsClubsValid(t: Tables, actor: User, clubId: int, u: ClubUpdate)
    requires forall id :: id in t.clubs ==> ValidClub(t.clubs[id])
    requires ValidClubUpdate(u)
    ensures var t' := UpdateClub(t, actor, clubId, u).1;
      forall id :: id in t'.clubs ==> ValidClub(t'.clubs[id])
  {
    if clubId in t.clubs {
      UpdatePreservesValidity(t.clubs[clubId], u);
    }
  }

  // ---------------------------------------------------------------------
  // delete_club_by_id

  /** True when some event row belongs to the club. */
  predicate HasEvents(t: Tables, clubId: int)
  {
    exists id :: id in t.events && t.events[id].clubId == clubId
  }

  /** Deleting a club also deletes its membership rows, which the ORM removes
      from the association table. Deleting a club that still has events
      fails: the ORM sets their `club_id` to NULL, which the NOT NULL column
      refuses, and the request ends in a server error with nothing committed. */
  function DeleteClub(t: Tables, actor: User, clubId: int): (res: (Outcome<()>, Tables))
    ensures res.0.Ok? <==> clubId in t.clubs && CanManage(t, actor, clubId) && !HasEvents(t, clubId)
    ensures clubId !in t.clubs ==> res.0 == Err(HttpError(404, CLUB_NOT_FOUND))
    ensures clubId in t.clubs && !CanManage(t, actor, clubId) ==> res.0 == Err(HttpError(403, CANNOT_DELETE))
    ensures res.0.Err? ==> res.1 == t
    ensures res.0.Ok? ==>
      && res.1.clubs.Keys == t.clubs.Keys - {clubId}
      && (forall id :: id in res.1.clubs ==> res.1.clubs[id] == t.clubs[id])
      && (forall k :: k in res.1.memberships <==> k in t.memberships && k.0 != clubId)
      && res.1.users == t.users && res.1.events == t.events && res.1.attendance == t.attendance
  {
    if clubId !in t.clubs then (Err(HttpError(404, CLUB_NOT_FOUND)), t)
    else if !CanManage(t, actor, clubId) then (Err(HttpError(403, CANNOT_DELETE)), t)
    else if HasEvents(t, clubId) then (Err(HttpError(500, SERVER_ERROR)), t)
    else (Ok(()), t.(clubs := t.clubs - {clubId}, memberships := WithoutClub(t.memberships, clubId)))
  }

  method DeleteClubById(db: Db, actor: User, clubId: int) returns (r: Outcome<()>)
    modifies db
    ensures (r, db.State()) == DeleteClub(old(db.State()), actor, clubId)
  {
    if clubId !in db.clubs {
      return Err(HttpError(404, CLUB_NOT_FOUND));
    }
    var allowed := db.IsAdminOrManager(actor, clubId);
    if !allowed {
      return Err(HttpError(403, CANNOT_DELETE));
    }
    if exists id :: id in db.events && db.events[id].clubId == clubId {
      return Err(HttpError(500, SERVER_ERROR));
    }
    db.clubs := db.clubs - {clubId};
    db.memberships := WithoutClub(db.memberships, clubId);
    return Ok(());
  }

  // ---------------------------------------------------------------------
  // add_member_to_club

  /** `role_in_club` is an optional query parameter that defaults to MEMBER. */
  function RoleOrDefault(role: Option<ClubRole>): ClubRole
  {
    if role.Some? then role.value else MEMBER
  }

  function AddMember(t: Tables, actor: User, clubId: int, userId: int, role: Option<ClubRole>): (res: (Outcome<()>, Tables))
    ensures res.0.Ok? <==>
      clubId in t.clubs && userId in t.users && CanManage(t, actor, clubId) && !IsMember(t, clubId, userId)
    ensures clubId !in t.clubs ==> res.0 == Err(HttpError(404, CLUB_NOT_FOUND))
    ensures clubId in t.clubs && userId !in t.users ==> res.0 == Err(HttpError(404, USER_TO_ADD_NOT_FOUND))
    ensures clubId in t.clubs && userId in t.users && !CanManage(t, actor, clubId) ==>
      res.0 == Err(HttpError(403, CANNOT_ADD))
    ensures clubId in t.clubs && userId in t.users && CanManage(t, actor, clubId) && IsMember(t, clubId, userId) ==>
      res.0 == Err(HttpError(400, ALREADY_MEMBER))
    ensures res.0.Err? ==> res.1 == t
    ensures res.0.Ok? ==>
      && res.1 == t.(memberships := res.1.memberships)
      && res.1.memberships.Keys == t.memberships.Keys + {(clubId, userId)}
      && |res.1.memberships| == |t.memberships| + 1
      && res.1.memberships[(clubId, userId)] == RoleOrDefault(role)
      && (forall k :: k in t.memberships ==> res.1.memberships[k] == t.memberships[k])
  {
    if clubId !in t.clubs then (Err(HttpError(404, CLUB_NOT_FOUND)), t)
    else if userId !in t.users then (Err(HttpError(404, USER_TO_ADD_NOT_FOUND)), t)
    else if !CanManage(t, actor, clubId) then (Err(HttpError(403, CANNOT_ADD)), t)
    else if (clubId, userId) in t.memberships then (Err(HttpError(400, ALREADY_MEMBER)), t)
    else (Ok(()), t.(memberships := t.memberships[(clubId, userId) := RoleOrDefault(role)]))
  }

  method AddMemberToClub(db: Db, actor: User, clubId: int, userId: int, roleInClub: Option<ClubRole>)
    returns (r: Outcome<()>)
    modifies db
    ensures (r, db.State()) == AddMember(old(db.State()), actor, clubId, userId, roleInClub)
  {
    if clubId !in db.clubs {
      return Err(HttpError(404, CLUB_NOT_FOUND));
    }
    if userId !in db.users {
      return Err(HttpError(404, USER_TO_ADD_NOT_FOUND));
    }
    var allowed := db.IsAdminOrManager(actor, clubId);
    if !allowed {
      return Err(HttpError(403, CANNOT_ADD));
    }
    if (clubId, userId) in db.memberships {
      return Err(HttpError(400, ALREADY_MEMBER));
    }
    db.memberships := db.memberships[(clubId, userId) := RoleOrDefault(roleInClub)];
    return Ok(());
  }

  // ---------------------------------------------------------------------
  // get_club_members

  /** The users joined to the club's membership rows, as a set of ids. */
  function Members(t: Tables, actor: User, clubId: int): (r: Outcome<set<int>>)
    ensures r.Ok? <==> clubId in t.clubs && (IsAdmin(actor) || IsMember(t, clubId, actor.id))
    ensures clubId !in t.clubs ==> r == Err(HttpError(404, CLUB_NOT_FOUND))
    ensures clubId in t.clubs && !(IsAdmin(actor) || IsMember(t, clubId, actor.id)) ==>
      r == Err(HttpError(403, CANNOT_VIEW))
    ensures r.Ok? ==> forall u :: u in r.value <==> IsMember(t, clubId, u) && u in t.users
  {
    if clubId !in t.clubs then Err(HttpError(404, CLUB_NOT_FOUND))
    else if !(IsAdmin(actor) || (clubId, actor.id) in t.memberships) then Err(HttpError(403, CANNOT_VIEW))
    else Ok(set k | k in t.memberships && k.0 == clubId && k.1 in t.users :: k.1)
  }

  method GetClubMembers(db: Db, actor: User, clubId: int) returns (r: Outcome<set<int>>)
    ensures r == Members(db.State(), actor, clubId)
  {
    if clubId !in db.clubs {
      return Err(HttpError(404, CLUB_NOT_FOUND));
    }
    var isSaoAdmin := actor.role == SAO_ADMIN;
    var isClubManagerOrMember := false;
    if !isSaoAdmin {
      if (clubId, actor.id) in db.memberships {
        isClubManagerOrMember := true;
      }
    }
    if !(isSaoAdmin || isClubManagerOrMember) {
      return Err(HttpError(403, CANNOT_VIEW));
    }
    return Ok(set k | k in db.memberships && k.0 == clubId && k.1 in db.users :: k.1);
  }

  /** Any member may list the members, though only a manager may add one. */
  lemma MemberMayViewButNotAdd(t: Tables, actor: User, clubId: int, userId: int)
    requires clubId in t.clubs && userId in t.users && !IsAdmin(actor)
    requires IsMember(t, clubId, actor.id) && t.memberships[(clubId, actor.id)] == MEMBER
    ensures Members(t, actor, clubId).Ok?
    ensures actor.id in Members(t, actor, clubId).value <==> actor.id in t.users
    ensures AddMember(t, actor, clubId, userId, None).0 == Err(HttpError(403, CANNOT_ADD))
  {
  }

  // ---------------------------------------------------------------------
  // update_member_role_in_club

  /** No club lookup: the permission test comes first, then the update whose
      matched-row count of zero means 404. */
  function UpdateMemberRole(t: Tables, actor: User, clubId: int, userId: int, role: ClubRole): (res: (Outcome<()>, Tables))
    ensures res.0.Ok? <==> CanManage(t, actor, clubId) && IsMember(t, clubId, userId)
    ensures !CanManage(t, actor, clubId) ==> res.0 == Err(HttpError(403, CANNOT_CHANGE_ROLE))
    ensures CanManage(t, actor, clubId) && !IsMember(t, clubId, userId) ==>
      res.0 == Err(HttpError(404, MEMBERSHIP_NOT_FOUND_OR_UNCHANGED))
    ensures res.0.Err? ==> res.1 == t
    ensures res.0.Ok? ==>
      && res.1 == t.(memberships := res.1.memberships)
      && res.1.memberships.Keys == t.memberships.Keys
      && res.1.memberships[(clubId, userId)] == role
      && (forall k :: k in t.memberships && k != (clubId, userId) ==> res.1.memberships[k] == t.memberships[k])
  {
    if !CanManage(t, actor, clubId) then (Err(HttpError(403, CANNOT_CHANGE_ROLE)), t)
    else if (clubId, userId) !in t.memberships then (Err(HttpError(404, MEMBERSHIP_NOT_FOUND_OR_UNCHANGED)), t)
    else (Ok(()), t.(memberships := t.memberships[(clubId, userId) := role]))
  }

  method UpdateMemberRoleInClub(db: Db, actor: User, clubId: int, userId: int, roleInClub: ClubRole)
    returns (r: Outcome<()>)
    modifies db
    ensures (r, db.State()) == UpdateMemberRole(old(db.State()), actor, clubId, userId, roleInClub)
  {
    var allowed := db.IsAdminOrManager(actor, clubId);
    if !allowed {
      return Err(HttpError(403, CANNOT_CHANGE_ROLE));
    }
    var rowcount := if (clubId, userId) in db.memberships then 1 else 0;
    if rowcount == 0 {
      return Err(HttpError(404, MEMBERSHIP_NOT_FOUND_OR_UNCHANGED));
    }
    db.memberships := db.memberships[(clubId, userId) := roleInClub];
    return Ok(());
  }

  // ---------------------------------------------------------------------
  // remove_member_from_club

  /** Admin, the member themself, or a manager of the club. */
  predicate MayRemove(t: Tables, actor: User, clubId: int, userId: int)
  {
    IsAdmin(actor) || actor.id == userId || IsManager(t, clubId, actor.id)
  }

  function RemoveMember(t: Tables, actor: User, clubId: int, userId: int): (res: (Outcome<()>, Tables))
    ensures res.0.Ok? <==> MayRemove(t, actor, clubId, userId) && IsMember(t, clubId, userId)
    ensures !MayRemove(t, actor, clubId, userId) ==> res.0 == Err(HttpError(403, CANNOT_REMOVE))
    ensures MayRemove(t, actor, clubId, userId) && !IsMember(t, clubId, userId) ==>
      res.0 == Err(HttpError(404, MEMBERSHIP_NOT_FOUND))
    ensures res.0.Err? ==> res.1 == t
    ensures res.0.Ok? ==>
      && res.1 == t.(memberships := res.1.memberships)
      && res.1.memberships.Keys == t.memberships.Keys - {(clubId, userId)}
      && |res.1.memberships| == |t.memberships| - 1
      && (forall k :: k in res.1.memberships ==> res.1.memberships[k] == t.memberships[k])
  {
    if !MayRemove(t, actor, clubId, userId) then (Err(HttpError(403, CANNOT_REMOVE)), t)
    else if (clubId, userId) !in t.memberships then (Err(HttpError(404, MEMBERSHIP_NOT_FOUND)), t)
    else (Ok(()), t.(memberships := t.memberships - {(clubId, userId)}))
  }

  method RemoveMemberFromClub(db: Db, actor: User, clubId: int, userId: int) returns (r: Outcome<()>)
    modifies db
    ensures (r, db.State()) == RemoveMember(old(db.State()), actor, clubId, userId)
  {
    var isSaoAdmin := actor.role == SAO_ADMIN;
    var isSelfRemoval := actor.id == userId;
    var isClubManager := false;
    if !(isSaoAdmin || isSelfRemoval) {
      if (clubId, actor.id) in db.memberships && db.memberships[(clubId, actor.id)] == MANAGER {
        isClubManager := true;
      }
    }
    if !(isSaoAdmin || isClubManager || isSelfRemoval) {
      return Err(HttpError(403, CANNOT_REMOVE));
    }
    var rowcount := if (clubId, userId) in db.memberships then 1 else 0;
    if rowcount == 0 {
      return Err(HttpError(404, MEMBERSHIP_NOT_FOUND));
    }
    db.memberships := db.memberships - {(clubId, userId)};
    return Ok(());
  }

  // ---------------------------------------------------------------------
  // Properties across handlers

  /** Adding a new member and then removing them, by someone allowed to do
      both, gives back the tables as they were. */
  lemma AddThenRemoveRestores(t: Tables, actor: User, clubId: int, userId: int, role: Option<ClubRole>)
    requires AddMember(t, actor, clubId, userId, role).0.Ok?
    ensures var t1 := AddMember(t, actor, clubId, userId, role).1;
      RemoveMember(t1, actor, clubId, userId) == (Ok(()), t)
  {
    var t1 := AddMember(t, actor, clubId, userId, role).1;
    assert IsManager(t1, clubId, actor.id) <== IsManager(t, clubId, actor.id);
    assert t1.memberships - {(clubId, userId)} == t.memberships;
  }

  /** Any member may leave a club, whatever their role. */
  lemma MemberMayLeave(t: Tables, actor: User, clubId: int)
    requires IsMember(t, clubId, actor.id)
    ensures RemoveMember(t, actor, clubId, actor.id).0.Ok?
    ensures actor.id !in set k | k in RemoveMember(t, actor, clubId, actor.id).1.memberships && k.0 == clubId :: k.1
  {
  }

  /** Every club handler keeps the foreign keys intact: a deleted club
      takes its memberships with it and cannot have events, and a membership
      is only added for an existing club and user. */
  lemma ClubHandlersKeepConsistency(t: Tables, actor: User, clubId: int, userId: int, u: ClubUpdate,
                                    role: Option<ClubRole>, newRole: ClubRole)
    requires Consistent(t)
    ensures Consistent(UpdateClub(t, actor, clubId, u).1)
    ensures Consistent(DeleteClub(t, actor, clubId).1)
    ensures Consistent(AddMember(t, actor, clubId, userId, role).1)
    ensures Consistent(UpdateMemberRole(t, actor, clubId, userId, newRole).1)
    ensures Consistent(RemoveMember(t, actor, clubId, userId).1)
  {
    UpdateClubConsistent(t, actor, clubId, u);
    DeleteClubConsistent(t, actor, clubId);
    AddMemberConsistent(t, actor, clubId, userId, role);
    UpdateMemberRoleConsistent(t, actor, clubId, userId, newRole);
    RemoveMemberConsistent(t, actor, clubId, userId);
  }

  lemma UpdateClubConsistent(t: Tables, actor: User, clubId: int, u: ClubUpdate)
    requires Consistent(t)
    ensures Consistent(UpdateClub(t, actor, clubId, u).1)
  {
    var t' := UpdateClub(t, actor, clubId, u).1;
    assert t'.clubs.Keys == t.clubs.Keys;
  }

  lemma DeleteClubConsistent(t: Tables, actor: User, clubId: int)
    requires Consistent(t)
    ensures Consistent(DeleteClub(t, actor, clubId).1)
  {
    var (r, t') := DeleteClub(t, actor, clubId);
    if r.Ok? {
      forall id | id in t'.events ensures t'.events[id].clubId in t'.clubs {
        assert t.events[id].clubId != clubId;
      }
    }
  }

  lemma AddMemberConsistent(t: Tables, actor: User, clubId: int, userId: int, role: Option<ClubRole>)
    requires Consistent(t)
    ensures Consistent(AddMember(t, actor, clubId, userId, role).1)
  {
  }

  lemma UpdateMemberRoleConsistent(t: Tables, actor: User, clubId: int, userId: int, role: ClubRole)
    requires Consistent(t)
    ensures Consistent(UpdateMemberRole(t, actor, clubId, userId, role).1)
  {
  }

  lemma RemoveMemberConsistent(t: Tables, actor: User, clubId: int, userId: int)
    requires Consistent(t)
    ensures Consistent(RemoveMember(t, actor, clubId, userId).1)
  {
  }
}
