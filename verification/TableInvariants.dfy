/** What every serial run of requests keeps about rooms, members and accounts. */
module TableInvariants {
  import opened Types
  import opened Tables

  type Users = map<Id, UserRow>
  type Rooms = map<Id, RoomRow>

  // --- the invariants -------------------------------------------------------------------

  /** The owner column names a row with the owner role. */
  ghost predicate OwnerRow(rooms: Rooms, members: Members, room: Id) {
    room in rooms ==>
      (room, rooms[room].owner) in members && members[(room, rooms[room].owner)].role == Owner
  }

  predicate IsOwnerOf(rooms: Rooms, k: (Id, Id)) {
    k.0 in rooms && rooms[k.0].owner == k.1
  }

  ghost predicate SingleOwner(rooms: Rooms, members: Members) {
    && (forall r :: OwnerRow(rooms, members, r))
    && (forall k :: k in members && members[k].role == Owner ==> IsOwnerOf(rooms, k))
  }

  /** The owner of a room that has not ended is not kicked. */
  ghost predicate OwnerKept(rooms: Rooms, members: Members) {
    forall k :: k in members && IsOwnerOf(rooms, k) && RoomActive(rooms, k.0) ==> !members[k].kicked
  }

  ghost predicate KickedLeft(members: Members) {
    forall k :: k in members && members[k].kicked ==> members[k].leftAt.Some?
  }

  ghost predicate CodesUnique(rooms: Rooms) {
    forall r, q, code :: HoldsCode(rooms, r, code) && HoldsCode(rooms, q, code) ==> r == q
  }

  predicate Deleted(users: Users, user: Id) {
    user in users && users[user].deletedAt.Some?
  }

  /** Deleted accounts are members nowhere and own no active room. */
  ghost predicate DeletedOut(users: Users, rooms: Rooms, members: Members) {
    && (forall k :: k in members && members[k].leftAt.None? ==> !Deleted(users, k.1))
    && (forall r :: RoomActive(rooms, r) ==> !Deleted(users, rooms[r].owner))
  }

  /** The foreign keys of rooms and members. */
  ghost predicate Refs(users: Users, rooms: Rooms, members: Members) {
    && (forall r :: r in rooms ==> rooms[r].owner in users)
    && (forall k :: k in members ==> k.0 in rooms && k.1 in users)
  }

  ghost predicate Owners(rooms: Rooms, members: Members) {
    SingleOwner(rooms, members) && OwnerKept(rooms, members)
  }

  ghost predicate Standing(users: Users, rooms: Rooms, members: Members) {
    KickedLeft(members) && CodesUnique(rooms) && DeletedOut(users, rooms, members) && Refs(users, rooms, members)
  }

  ghost predicate Inv(db: Db) {
    Owners(db.rooms, db.members) && Standing(db.users, db.rooms, db.members)
  }

  // --- shapes of change --------------------------------------------------------------------

  ghost predicate SameLifecycle(was: RoomRow, now: RoomRow) {
    now.owner == was.owner && now.code == was.code && now.endedAt == was.endedAt
  }

  lemma PutUser(users: Users, id: Id, row: UserRow)
    ensures forall u :: Deleted(users[id := row], u) <==> if u == id then row.deletedAt.Some? else Deleted(users, u)
  {
    var users' := users[id := row];
    forall u ensures Deleted(users', u) <==> if u == id then row.deletedAt.Some? else Deleted(users, u) {
      assert u in users' <==> u == id || u in users;
    }
  }

  /** A room row changes, but not its owner or code, and it does not come back to life. */
  lemma RoomEditKeeps(users: Users, rooms: Rooms, members: Members, room: Id, row: RoomRow)
    requires Owners(rooms, members) && Standing(users, rooms, members) && room in rooms
    requires row.owner == rooms[room].owner && row.code == rooms[room].code
    requires row.endedAt.None? ==> rooms[room].endedAt.None?
    ensures Owners(rooms[room := row], members) && Standing(users, rooms[room := row], members)
  {
    var rooms' := rooms[room := row];
    assert forall r :: OwnerRow(rooms, members, r) ==> OwnerRow(rooms', members, r);
    assert forall k :: IsOwnerOf(rooms, k) == IsOwnerOf(rooms', k);
    assert forall r :: RoomActive(rooms', r) ==> RoomActive(rooms, r);
    assert forall r, code :: HoldsCode(rooms', r, code) ==> HoldsCode(rooms, r, code);
  }

  /** A membership row changes, but not its role; it may come back only for a live
      account, and be kicked only if that is not the owner of an active room. */
  lemma MemberEditKeeps(users: Users, rooms: Rooms, members: Members, k: (Id, Id), row: MemberRow)
    requires Owners(rooms, members) && Standing(users, rooms, members) && k in members
    requires row.role == members[k].role
    requires row.kicked ==> row.leftAt.Some? && !(IsOwnerOf(rooms, k) && RoomActive(rooms, k.0))
    requires row.leftAt.None? ==> !Deleted(users, k.1)
    ensures Owners(rooms, members[k := row]) && Standing(users, rooms, members[k := row])
  {
    var members' := members[k := row];
    forall r ensures OwnerRow(rooms, members', r) {
      assert OwnerRow(rooms, members, r);
    }
  }

  // --- operations -------------------------------------------------------------------------

  lemma InsertRoomOwners(db: Db, owner: Id, id: Id, code: string, name: Option<string>, now: Time)
    requires Inv(db) && !Collides(db, owner, id, code)
    ensures var db' := InsertRoom(db, owner, id, code, name, now); Owners(db'.rooms, db'.members)
  {
    var db' := InsertRoom(db, owner, id, code, name, now);
    assert forall r :: OwnerRow(db.rooms, db.members, r) ==> OwnerRow(db'.rooms, db'.members, r);
    forall k | k in db'.members && db'.members[k].role == Owner ensures IsOwnerOf(db'.rooms, k) {
      assert k != (id, owner) ==> IsOwnerOf(db.rooms, k);
    }
    forall k | k in db'.members && IsOwnerOf(db'.rooms, k) && RoomActive(db'.rooms, k.0)
        ensures !db'.members[k].kicked {
      assert k.0 != id ==> IsOwnerOf(db.rooms, k) && RoomActive(db.rooms, k.0);
    }
  }

  lemma InsertRoomStanding(db: Db, owner: Id, id: Id, code: string, name: Option<string>, now: Time)
    requires Inv(db) && LoadsUser(db.users, owner) && !Collides(db, owner, id, code)
    ensures var db' := InsertRoom(db, owner, id, code, name, now); Standing(db'.users, db'.rooms, db'.members)
  {
    var db' := InsertRoom(db, owner, id, code, name, now);
    forall r, q, c | HoldsCode(db'.rooms, r, c) && HoldsCode(db'.rooms, q, c) ensures r == q {
      assert r != id ==> HoldsCode(db.rooms, r, c);
      assert q != id ==> HoldsCode(db.rooms, q, c);
    }
    assert forall r :: RoomActive(db'.rooms, r) && r != id ==> RoomActive(db.rooms, r);
  }

  lemma {:induction false} CreateKeeps(db: Db, owner: Id, draws: seq<Draw>, name: Option<string>, now: Time)
    requires Inv(db) && LoadsUser(db.users, owner)
    ensures Inv(Create(db, owner, draws, name, now).db)
    decreases |draws|
  {
    if draws != [] && draws[0].code.Some? {
      if Collides(db, owner, draws[0].id, draws[0].code.value) {
        CreateKeeps(db, owner, draws[1..], name, now);
      } else {
        InsertRoomOwners(db, owner, draws[0].id, draws[0].code.value, name, now);
        InsertRoomStanding(db, owner, draws[0].id, draws[0].code.value, name, now);
      }
    }
  }

  lemma JoinKeeps(db: Db, user: Id, code: string, now: Time)
    requires Inv(db) && LoadsUser(db.users, user)
    ensures Inv(Join(db, user, code, now).db)
  {
    match RoomByCode(db, code)
    case None =>
    case Some(room) =>
      var k := (room, user);
      if k in db.members {
        MemberEditKeeps(db.users, db.rooms, db.members, k, db.members[k].(leftAt := None, kicked := false));
      } else {
        var members' := UpsertMember(db.members, room, user, now);
        assert forall r :: OwnerRow(db.rooms, db.members, r) ==> OwnerRow(db.rooms, members', r);
      }
  }

  lemma LeaveKeeps(db: Db, room: Id, user: Id, now: Time)
    requires Inv(db)
    ensures Inv(Leave(db, room, user, now).db)
  {
    var k := (room, user);
    if Listed(db.members, room, user) {
      MemberEditKeeps(db.users, db.rooms, db.members, k, db.members[k].(leftAt := Some(now)));
    }
  }

  lemma KickKeeps(db: Db, room: Id, actor: Id, target: Id, now: Time)
    requires Inv(db)
    ensures Inv(Kick(db, room, actor, target, now).db)
  {
    if RequireOwner(db.members, room, actor) && actor != target && Listed(db.members, room, target) {
      assert IsOwnerOf(db.rooms, (room, actor));
      MemberEditKeeps(db.users, db.rooms, db.members, (room, target),
                      db.members[(room, target)].(kicked := true, leftAt := Some(now)));
    }
  }

  lemma EndKeeps(db: Db, room: Id, actor: Id, now: Time)
    requires Inv(db)
    ensures Inv(EndRoom(db, room, actor, now).db)
  {
    if RoomActive(db.rooms, room) {
      RoomEditKeeps(db.users, db.rooms, db.members, room, db.rooms[room].(endedAt := Some(now)));
    }
  }

  lemma HandOverOwners(db: Db, room: Id, actor: Id, target: Id)
    requires Inv(db) && RoomActive(db.rooms, room) && actor != target
    requires RequireOwner(db.members, room, actor) && ActiveMember(db.members, room, target)
    ensures var db' := HandOver(db, room, actor, target); Owners(db'.rooms, db'.members)
  {
    var db' := HandOver(db, room, actor, target);
    assert IsOwnerOf(db.rooms, (room, actor));
    assert forall r :: OwnerRow(db.rooms, db.members, r) ==> OwnerRow(db'.rooms, db'.members, r);
    forall k | k in db'.members && db'.members[k].role == Owner ensures IsOwnerOf(db'.rooms, k) {
      assert k != (room, target) ==> IsOwnerOf(db.rooms, k);
    }
    forall k | k in db'.members && IsOwnerOf(db'.rooms, k) && RoomActive(db'.rooms, k.0)
        ensures !db'.members[k].kicked {
      assert k.0 != room ==> IsOwnerOf(db.rooms, k) && RoomActive(db.rooms, k.0);
    }
  }

  lemma HandOverStanding(db: Db, room: Id, actor: Id, target: Id)
    requires Inv(db) && RoomActive(db.rooms, room) && actor != target
    requires RequireOwner(db.members, room, actor) && ActiveMember(db.members, room, target)
    ensures var db' := HandOver(db, room, actor, target); Standing(db'.users, db'.rooms, db'.members)
  {
    var db' := HandOver(db, room, actor, target);
    assert forall r, c :: HoldsCode(db'.rooms, r, c) ==> HoldsCode(db.rooms, r, c);
    assert forall r :: RoomActive(db'.rooms, r) ==> RoomActive(db.rooms, r);
  }

  lemma TransferKeeps(db: Db, room: Id, actor: Id, target: Id, now: Time)
    requires Inv(db)
    ensures Inv(Transfer(db, room, actor, target, now).db)
  {
    var kept := KeepDestination(db, room, actor, now);
    if && RequireOwner(db.members, room, actor) && actor != target
       && ActiveMember(db.members, room, target) && RoomActive(kept.rooms, room) {
      HandOverOwners(kept, room, actor, target);
      HandOverStanding(kept, room, actor, target);
    }
  }

  /** What both deletion paths leave, row by row. */
  ghost predicate RoomEnded(was: RoomRow, now: RoomRow, user: Id) {
    && now.owner == was.owner && now.code == was.code
    && (now.endedAt.None? <==> was.endedAt.None? && was.owner != user)
  }

  ghost predicate MemberKicked(was: MemberRow, now: MemberRow, theirs: bool) {
    if theirs && was.leftAt.None? then now.role == was.role && now.kicked && now.leftAt.Some? else now == was
  }

  ghost predicate SoftDeleted(db: Db, db': Db, user: Id) {
    && db'.users.Keys == db.users.Keys && db'.rooms.Keys == db.rooms.Keys && db'.members.Keys == db.members.Keys
    && (forall u :: Deleted(db'.users, u) <==> Deleted(db.users, u) || (u == user && u in db.users))
    && (forall r :: r in db.rooms ==> RoomEnded(db.rooms[r], db'.rooms[r], user))
    && (forall k :: k in db.members ==> MemberKicked(db.members[k], db'.members[k], k.1 == user))
  }

  lemma SoftDeletes(db: Db, user: Id, now: Time)
    ensures SoftDeleted(db, SoftDelete(db, user, now), user)
  {
    var db' := SoftDelete(db, user, now);
    if LoadsUser(db.users, user) {
      PutUser(db.users, user, db.users[user].(deletedAt := Some(now)));
    }
    assert db'.users == StampDeleted(db, user, now).users;
  }

  lemma SoftDeletedOwners(db: Db, db': Db, user: Id)
    requires Inv(db) && SoftDeleted(db, db', user)
    ensures Owners(db'.rooms, db'.members)
  {
    forall r ensures OwnerRow(db'.rooms, db'.members, r) {
      assert OwnerRow(db.rooms, db.members, r);
    }
    forall k | k in db'.members && db'.members[k].role == Owner ensures IsOwnerOf(db'.rooms, k) {
      assert IsOwnerOf(db.rooms, k);
    }
    forall k | k in db'.members && IsOwnerOf(db'.rooms, k) && RoomActive(db'.rooms, k.0)
        ensures !db'.members[k].kicked {
      assert IsOwnerOf(db.rooms, k) && RoomActive(db.rooms, k.0);
    }
  }

  lemma SoftDeletedStanding(db: Db, db': Db, user: Id)
    requires Inv(db) && SoftDeleted(db, db', user)
    ensures Standing(db'.users, db'.rooms, db'.members)
  {
    assert forall r, c :: HoldsCode(db'.rooms, r, c) ==> HoldsCode(db.rooms, r, c);
    assert forall r :: RoomActive(db'.rooms, r) ==> RoomActive(db.rooms, r) && db.rooms[r].owner != user;
  }

  lemma SoftDeleteKeeps(db: Db, user: Id, now: Time)
    requires Inv(db)
    ensures Inv(SoftDelete(db, user, now))
  {
    SoftDeletes(db, user, now);
    SoftDeletedOwners(db, SoftDelete(db, user, now), user);
    SoftDeletedStanding(db, SoftDelete(db, user, now), user);
  }

  lemma CascadeOwners(db: Db, user: Id)
    requires Inv(db)
    ensures Owners(Cascade(db, user).rooms, Cascade(db, user).members)
  {
    var db' := Cascade(db, user);
    forall r ensures OwnerRow(db'.rooms, db'.members, r) {
      assert OwnerRow(db.rooms, db.members, r);
    }
    forall k | k in db'.members && db'.members[k].role == Owner ensures IsOwnerOf(db'.rooms, k) {
      assert IsOwnerOf(db.rooms, k);
    }
    forall k | k in db'.members && IsOwnerOf(db'.rooms, k) && RoomActive(db'.rooms, k.0)
        ensures !db'.members[k].kicked {
      assert IsOwnerOf(db.rooms, k) && RoomActive(db.rooms, k.0);
    }
  }

  lemma CascadeStanding(db: Db, user: Id)
    requires Inv(db)
    ensures var db' := Cascade(db, user); Standing(db'.users, db'.rooms, db'.members)
  {
    var db' := Cascade(db, user);
    assert forall r, c :: HoldsCode(db'.rooms, r, c) ==> HoldsCode(db.rooms, r, c);
    assert forall u :: Deleted(db'.users, u) ==> Deleted(db.users, u);
    assert forall r :: RoomActive(db'.rooms, r) ==> RoomActive(db.rooms, r);
  }

  /** Accounts come into being, are updated or come back; nothing else changes. */
  lemma UsersKeep(db: Db, users: Users)
    requires Inv(db) && db.users.Keys <= users.Keys
    requires forall u :: Deleted(users, u) ==> Deleted(db.users, u)
    ensures Inv(db.(users := users))
  {
  }

  lemma SignInKeeps(db: Db, provider: string, subject: string, id: Id, email: Option<string>)
    requires Inv(db)
    ensures Inv(SignIn(db, provider, subject, id, email).db)
  {
    var db' := SignIn(db, provider, subject, id, email).db;
    if db'.users != db.users {
      var at := if (provider, subject) in db.identities then db.identities[(provider, subject)] else id;
      PutUser(db.users, at, db'.users[at]);
      UsersKeep(db, db'.users);
    }
  }

  // --- requests -----------------------------------------------------------------------------

  lemma AccountKeeps(db: Db, op: AccountOp)
    requires Inv(db)
    ensures Inv(ServeAccount(db, op).db)
  {
    match op
    case GuestOp(id) =>
      PutUser(db.users, id, UserRow(None, None));
      UsersKeep(db, db.users[id := UserRow(None, None)]);
    case SignInOp(provider, subject, id, email) => SignInKeeps(db, provider, subject, id, email);
    case AdminDeleteOp(user, now) => SoftDeleteKeeps(db, user, now);
    case RestoreOp(user) =>
      if user in db.users {
        PutUser(db.users, user, db.users[user].(deletedAt := None));
        UsersKeep(db, db.users[user := db.users[user].(deletedAt := None)]);
      }
    case HardDeleteOp(user) =>
      CascadeOwners(db, user);
      CascadeStanding(db, user);
  }

  lemma MembershipKeeps(db: Db, user: Id, op: MembershipOp)
    requires Inv(db) && LoadsUser(db.users, user)
    ensures Inv(ServeMembership(db, user, op).db)
  {
    match op
    case CreateOp(draws, name, now) =>
      CreateKeeps(db, user, Taken(draws), name, now);
    case JoinOp(code, now) => JoinKeeps(db, user, code, now);
    case LeaveOp(room, now) => LeaveKeeps(db, room, user, now);
    case KickOp(room, target, now) => KickKeeps(db, room, user, target, now);
    case EndOp(room, now) => EndKeeps(db, room, user, now);
    case TransferOp(room, target, now) => TransferKeeps(db, room, user, target, now);
    case DeleteAccountOp(now) => SoftDeleteKeeps(db, user, now);
  }

  /** What a room shows is edited without touching accounts or memberships, and in the
      rooms table at most that room's row. */
  lemma RouteFrame(db: Db, user: Id, room: Id, op: RouteOp)
    ensures var db' := ServeRoute(db, user, room, op).db;
            && db'.users == db.users && db'.members == db.members
            && (db'.rooms == db.rooms
                || (RoomActive(db.rooms, room) && room in db'.rooms && db'.rooms == db.rooms[room := db'.rooms[room]]
                    && SameLifecycle(db.rooms[room], db'.rooms[room])))
  {
  }

  lemma RouteKeeps(db: Db, user: Id, room: Id, op: RouteOp)
    requires Inv(db)
    ensures Inv(ServeRoute(db, user, room, op).db)
  {
    RouteFrame(db, user, room, op);
    var db' := ServeRoute(db, user, room, op).db;
    if db'.rooms != db.rooms {
      RoomEditKeeps(db.users, db.rooms, db.members, room, db'.rooms[room]);
    }
  }

  lemma HandleKeeps(db: Db, req: Request)
    requires Inv(db)
    ensures Inv(Handle(db, req).db)
  {
    match req
    case Membership(user, op) => if LoadsUser(db.users, user) { MembershipKeeps(db, user, op); }
    case Route(user, room, op) => if LoadsUser(db.users, user) { RouteKeeps(db, user, room, op); }
    case Account(op) => AccountKeeps(db, op);
  }

  lemma {:induction false} HandleAllKeeps(db: Db, reqs: seq<Request>)
    requires Inv(db)
    ensures Inv(HandleAll(db, reqs))
    decreases |reqs|
  {
    if reqs != [] {
      HandleKeeps(db, reqs[0]);
      HandleAllKeeps(Handle(db, reqs[0]).db, reqs[1..]);
    }
  }
}
