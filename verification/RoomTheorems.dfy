/** Ownership, membership, deletion and the end of rooms over whole runs of requests. */
module RoomTheorems {
  import opened Types
  import opened Tables
  import opened TableInvariants

  lemma EmptyInv()
    ensures Inv(EMPTY)
  {
  }

  /** Single owner: after every run exactly one row of a room has the owner role, the row
      of its owner column, and in a room that has not ended that row is not kicked. */
  lemma OneOwner(reqs: seq<Request>, room: Id, user: Id)
    requires room in HandleAll(EMPTY, reqs).rooms
    ensures var db := HandleAll(EMPTY, reqs);
            && ((room, user) in db.members && db.members[(room, user)].role == Owner <==> user == db.rooms[room].owner)
            && (room, db.rooms[room].owner) in db.members
            && (RoomActive(db.rooms, room) ==> !db.members[(room, db.rooms[room].owner)].kicked)
  {
    EmptyInv();
    HandleAllKeeps(EMPTY, reqs);
    var db := HandleAll(EMPTY, reqs);
    assert OwnerRow(db.rooms, db.members, room);
    assert IsOwnerOf(db.rooms, (room, db.rooms[room].owner));
  }

  /** A lookup by code has at most one answer. */
  lemma CodeNamesOneRoom(db: Db, code: string, room: Id)
    requires Inv(db)
    ensures RoomByCode(db, code) == Some(room) <==> HoldsCode(db.rooms, room, code)
  {
  }

  /** An owner who left and comes back by code is the owner again. */
  lemma OwnerRejoins(reqs: seq<Request>, room: Id, now: Time)
    requires var db := HandleAll(EMPTY, reqs);
             RoomActive(db.rooms, room) && LoadsUser(db.users, db.rooms[room].owner)
    ensures var db := HandleAll(EMPTY, reqs);
            var owner := db.rooms[room].owner;
            var after := Handle(db, Membership(owner, JoinOp(db.rooms[room].code, now)));
            after.reply == Ok && RequireOwner(after.db.members, room, owner)
  {
    EmptyInv();
    HandleAllKeeps(EMPTY, reqs);
    var db := HandleAll(EMPTY, reqs);
    CodeNamesOneRoom(db, db.rooms[room].code, room);
    assert OwnerRow(db.rooms, db.members, room);
  }

  /** The tests for an active member agree: whoever is listed, whether or not the kicked
      column is asked, and joined with the users table or not. */
  lemma MemberTestsAgree(reqs: seq<Request>, room: Id, user: Id)
    ensures var db := HandleAll(EMPTY, reqs);
            Listed(db.members, room, user) && user in db.users <==> ActiveMember(db.members, room, user)
  {
    EmptyInv();
    HandleAllKeeps(EMPTY, reqs);
  }

  /** Deleted accounts stay out: after every run a deleted user is an active member of no
      room and owns no room that has not ended, and no request of theirs or sign-in as
      them changes anything. */
  lemma DeletedStayOut(reqs: seq<Request>, user: Id, room: Id)
    requires Deleted(HandleAll(EMPTY, reqs).users, user)
    ensures var db := HandleAll(EMPTY, reqs);
            && !Listed(db.members, room, user)
            && !(RoomActive(db.rooms, room) && db.rooms[room].owner == user)
            && (forall op :: Handle(db, Membership(user, op)) == Outcome(db, Unauthorized))
            && (forall op :: Handle(db, Route(user, room, op)) == Outcome(db, Unauthorized))
            && (forall provider, subject, id, email ::
                  (provider, subject) in db.identities && db.identities[(provider, subject)] == user ==>
                  Handle(db, Account(SignInOp(provider, subject, id, email))) == Outcome(db, Failed))
  {
    EmptyInv();
    HandleAllKeeps(EMPTY, reqs);
  }

  /** No request but a restore by an admin brings a deleted account back. */
  lemma OnlyRestoreRevives(db: Db, req: Request, user: Id)
    requires Deleted(db.users, user) && user in Handle(db, req).db.users
    requires req != Account(RestoreOp(user))
    ensures Deleted(Handle(db, req).db.users, user)
  {
    match req
    case Membership(u, op) =>
      if LoadsUser(db.users, u) {
        MembershipUsers(db, u, op);
      }
    case Route(u, room, op) =>
      if LoadsUser(db.users, u) {
        RouteFrame(db, u, room, op);
      }
    case Account(op) => AccountRevives(db, op, user);
  }

  lemma AccountRevives(db: Db, op: AccountOp, user: Id)
    requires Deleted(db.users, user) && user in ServeAccount(db, op).db.users && op != RestoreOp(user)
    ensures Deleted(ServeAccount(db, op).db.users, user)
  {
  }

  lemma {:induction false} CreateUsers(db: Db, owner: Id, draws: seq<Draw>, name: Option<string>, now: Time)
    ensures Create(db, owner, draws, name, now).db.users == db.users
    decreases |draws|
  {
    if draws != [] && draws[0].code.Some? && Collides(db, owner, draws[0].id, draws[0].code.value) {
      CreateUsers(db, owner, draws[1..], name, now);
    }
  }

  /** Membership requests change no account but that of the user who deletes it. */
  lemma MembershipUsers(db: Db, user: Id, op: MembershipOp)
    ensures var db' := ServeMembership(db, user, op).db;
            db'.users == if op.DeleteAccountOp? then StampDeleted(db, user, op.now).users else db.users
  {
    match op
    case CreateOp(draws, name, now) =>
      CreateUsers(db, user, Taken(draws), name, now);
    case JoinOp(code, now) =>
    case LeaveOp(room, now) =>
    case KickOp(room, target, now) =>
    case EndOp(room, now) =>
    case TransferOp(room, target, now) =>
    case DeleteAccountOp(now) =>
  }

  // --- ended rooms ---------------------------------------------------------------------------

  lemma {:induction false} CreateKeepsRooms(db: Db, owner: Id, draws: seq<Draw>, name: Option<string>, now: Time,
      room: Id)
    requires room in db.rooms
    ensures var db' := Create(db, owner, draws, name, now).db;
            room in db'.rooms && db'.rooms[room] == db.rooms[room]
    decreases |draws|
  {
    if draws != [] && draws[0].code.Some? && Collides(db, owner, draws[0].id, draws[0].code.value) {
      CreateKeepsRooms(db, owner, draws[1..], name, now, room);
    }
  }

  lemma EndedStays(db: Db, req: Request, room: Id)
    requires room in db.rooms && db.rooms[room].endedAt.Some?
    ensures var db' := Handle(db, req).db;
            && (room in db'.rooms ==> db'.rooms[room] == db.rooms[room])
            && (!(req.Account? && req.act.HardDeleteOp?) ==> room in db'.rooms)
  {
    match req
    case Membership(user, op) =>
      if op.CreateOp? {
        var draws := Taken(op.draws);
        CreateKeepsRooms(db, user, draws, op.name, op.now, room);
      } else {
        MembershipKeepsEnded(db, user, op, room);
      }
    case Route(user, r, op) => RouteFrame(db, user, r, op);
    case Account(op) => AccountKeepsEnded(db, op, room);
  }

  lemma AccountKeepsEnded(db: Db, op: AccountOp, room: Id)
    requires room in db.rooms && db.rooms[room].endedAt.Some?
    ensures var db' := ServeAccount(db, op).db;
            && (room in db'.rooms ==> db'.rooms[room] == db.rooms[room])
            && (!op.HardDeleteOp? ==> room in db'.rooms)
  {
  }

  lemma MembershipKeepsEnded(db: Db, user: Id, op: MembershipOp, room: Id)
    requires !op.CreateOp? && room in db.rooms && db.rooms[room].endedAt.Some?
    ensures var db' := ServeMembership(db, user, op).db;
            room in db'.rooms && db'.rooms[room] == db.rooms[room]
  {
  }

  /** Ended is final: in no later run does anything of an ended room's row change, its
      owner, name, code, destination and end time included, and it is still there unless
      an admin hard-deletes an account. */
  lemma {:induction false} EndedIsFinal(db: Db, reqs: seq<Request>, room: Id)
    requires room in db.rooms && db.rooms[room].endedAt.Some?
    requires forall i :: 0 <= i < |reqs| ==> !(reqs[i].Account? && reqs[i].act.HardDeleteOp?)
    ensures room in HandleAll(db, reqs).rooms && HandleAll(db, reqs).rooms[room] == db.rooms[room]
    decreases |reqs|
  {
    if reqs != [] {
      EndedStays(db, reqs[0], room);
      EndedIsFinal(Handle(db, reqs[0]).db, reqs[1..], room);
    }
  }

  // --- creation ------------------------------------------------------------------------------

  /** The first `i` draws were taken and the next one is free. */
  ghost predicate FirstFree(db: Db, owner: Id, draws: seq<Draw>, i: nat) {
    && i < |draws|
    && (forall j :: 0 <= j < i ==> draws[j].code.Some? && Collides(db, owner, draws[j].id, draws[j].code.value))
    && draws[i].code.Some? && !Collides(db, owner, draws[i].id, draws[i].code.value)
  }

  /** Create succeeds exactly with its first free draw, which then adds one room that
      nobody's code clashes with and one owner row; otherwise it changes nothing. */
  lemma {:induction false} CreateAllOrNothing(db: Db, owner: Id, draws: seq<Draw>, name: Option<string>, now: Time,
      i: nat)
    requires owner in db.users
    ensures var out := Create(db, owner, draws, name, now);
            && (FirstFree(db, owner, draws, i) ==>
                  && out == Outcome(InsertRoom(db, owner, draws[i].id, draws[i].code.value, name, now), Ok)
                  && draws[i].id !in db.rooms && |out.db.rooms| == |db.rooms| + 1
                  && |out.db.members| == |db.members| + 1)
            && (out.reply == Ok ==> exists k: nat :: FirstFree(db, owner, draws, k))
            && (out.reply != Ok ==> out.db == db)
    decreases |draws|
  {
    var out := Create(db, owner, draws, name, now);
    if draws != [] && draws[0].code.Some? {
      if Collides(db, owner, draws[0].id, draws[0].code.value) {
        CreateAllOrNothing(db, owner, draws[1..], name, now, if i == 0 then 0 else i - 1);
        assert i > 0 && FirstFree(db, owner, draws, i) ==> FirstFree(db, owner, draws[1..], i - 1);
        if out.reply == Ok {
          var k: nat :| FirstFree(db, owner, draws[1..], k);
          assert forall j :: 0 < j < k + 1 ==> draws[j] == draws[1..][j - 1];
          assert FirstFree(db, owner, draws, k + 1);
        }
      } else {
        assert FirstFree(db, owner, draws, 0);
        assert FirstFree(db, owner, draws, i) ==> i == 0;
      }
    }
  }

  // --- the admin's delete ----------------------------------------------------------------------

  predicate OwnsActive(rooms: Rooms, user: Id) {
    exists r :: r in rooms && RoomActive(rooms, r) && rooms[r].owner == user
  }

  predicate ListedSomewhere(members: Members, user: Id) {
    exists k :: k in members && k.1 == user && members[k].leftAt.None?
  }

  /** The admin's delete is not a transaction. Stopped after `done` of its three updates,
      deleted accounts are still out if and only if it had not begun, there is no such
      account, or the updates that are missing had nothing to do. */
  lemma AdminDeleteStopped(db: Db, user: Id, now: Time, done: nat)
    requires Inv(db)
    ensures var db' := AdminDelete(db, user, now, done);
            DeletedOut(db'.users, db'.rooms, db'.members) <==>
              done == 0 || user !in db.users
              || ((done >= 2 || !OwnsActive(db.rooms, user)) && (done >= 3 || !ListedSomewhere(db.members, user)))
  {
    if done >= 3 {
      SoftDeleteKeeps(db, user, now);
    } else if done == 2 {
      StoppedAfterTwo(db, user, now);
    } else if done == 1 {
      StoppedAfterOne(db, user, now);
    }
  }

  lemma StoppedAfterOne(db: Db, user: Id, now: Time)
    requires Inv(db)
    ensures DeletedOut(StampDeleted(db, user, now).users, db.rooms, db.members) <==>
            user !in db.users || (!OwnsActive(db.rooms, user) && !ListedSomewhere(db.members, user))
  {
    StampedUsers(db, user, now);
    if user in db.users {
      StampedOut(db.users, StampDeleted(db, user, now).users, db.rooms, db.rooms, db.members, user);
    }
  }

  lemma StoppedAfterTwo(db: Db, user: Id, now: Time)
    requires Inv(db)
    ensures var stamped := StampDeleted(db, user, now);
            DeletedOut(stamped.users, EndOwned(stamped, user, now).rooms, db.members) <==>
            user !in db.users || !ListedSomewhere(db.members, user)
  {
    var stamped := StampDeleted(db, user, now);
    StampedUsers(db, user, now);
    EndOwnedRooms(stamped, user, now);
    if user in db.users {
      StampedOut(db.users, stamped.users, db.rooms, EndOwned(stamped, user, now).rooms, db.members, user);
    }
  }

  lemma StampedUsers(db: Db, user: Id, now: Time)
    ensures var users' := StampDeleted(db, user, now).users;
            && (user !in db.users ==> users' == db.users)
            && (user in db.users ==> forall u :: Deleted(users', u) <==> Deleted(db.users, u) || u == user)
  {
    if LoadsUser(db.users, user) {
      PutUser(db.users, user, db.users[user].(deletedAt := Some(now)));
    }
  }

  lemma EndOwnedRooms(db: Db, user: Id, now: Time)
    ensures var rooms' := EndOwned(db, user, now).rooms;
            && !OwnsActive(rooms', user)
            && (forall r :: RoomActive(rooms', r) <==> RoomActive(db.rooms, r) && db.rooms[r].owner != user)
            && (forall r :: RoomActive(rooms', r) ==> rooms'[r].owner == db.rooms[r].owner)
  {
  }

  /** After the first update the account is out exactly when it is listed nowhere and
      owns no active room. */
  lemma StampedOut(users: Users, users': Users, rooms: Rooms, rooms': Rooms, members: Members, user: Id)
    requires DeletedOut(users, rooms, members)
    requires forall u :: Deleted(users', u) <==> Deleted(users, u) || u == user
    requires forall r :: RoomActive(rooms', r) ==> RoomActive(rooms, r) && rooms'[r].owner == rooms[r].owner
    ensures DeletedOut(users', rooms', members) <==> !OwnsActive(rooms', user) && !ListedSomewhere(members, user)
  {
  }

  /** A hard delete goes through if and only if no room of somebody else still shows a
      destination the user set and no stop anywhere, in their own rooms included, was added
      by them; it then leaves no trace of the account in any table, and otherwise changes
      nothing. */
  lemma HardDeleteErases(db: Db, user: Id)
    requires user in db.users
    ensures var out := HardDelete(db, user);
            && (out.reply == Ok <==>
                  && (forall r :: r in db.rooms && db.rooms[r].owner != user ==> db.rooms[r].destSetBy != Some(user))
                  && (forall id :: id in db.stops ==> db.stops[id].createdBy != user))
            && (out.reply != Ok ==> out.db == db)
            && (out.reply == Ok ==> Untraced(out.db, user))
  {
    var rest := Cascade(db, user);
    assert forall r :: r in rest.rooms ==> r in db.rooms && rest.rooms[r] == db.rooms[r];
    assert forall id :: id in rest.stops ==> id in db.stops && rest.stops[id] == db.stops[id];
  }

  /** No row of any table refers to the user. */
  ghost predicate Untraced(db: Db, user: Id) {
    && user !in db.users
    && (forall k :: k in db.identities ==> db.identities[k] != user)
    && (forall r :: r in db.rooms ==> db.rooms[r].owner != user && db.rooms[r].destSetBy != Some(user))
    && (forall k :: k in db.members ==> k.1 != user)
    && (forall id :: id in db.stops ==> db.stops[id].createdBy != user)
    && (forall k :: k in db.markers ==> k.1 != user)
    && (forall id :: id in db.messages ==> db.messages[id].user != user)
  }
}
