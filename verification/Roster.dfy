/** Membership without the columns: who may use the system, which rooms there are, whose
    they are, and who is inside. The tables keep roles, kicked flags and two timestamps to
    represent this; over every run of requests they represent exactly it. */
module Roster {
  import opened Types
  import opened Tables
  import TI = TableInvariants
  import RT = RoomTheorems

  datatype Info = Info(code: string, owner: Id, ended: bool)

  /** `users` tells live accounts from deleted ones. */
  datatype Roster = Roster(
    users: map<Id, bool>,
    identities: map<(string, string), Id>,
    rooms: map<Id, Info>,
    inside: set<(Id, Id)>)

  const NOBODY: Roster := Roster(map[], map[], map[], {})

  // --- the plain machine --------------------------------------------------------------------

  predicate Live(a: Roster, user: Id) {
    user in a.users && a.users[user]
  }

  predicate Open(a: Roster, room: Id) {
    room in a.rooms && !a.rooms[room].ended
  }

  /** The owner, while inside. */
  predicate Runs(a: Roster, room: Id, user: Id) {
    room in a.rooms && a.rooms[room].owner == user && (room, user) in a.inside
  }

  predicate Holds(a: Roster, room: Id, code: string) {
    Open(a, room) && a.rooms[room].code == code
  }

  datatype Step = Step(to: Roster, reply: Reply)

  function Enter(a: Roster, room: Id, user: Id): Roster {
    a.(inside := a.inside + {(room, user)})
  }

  function Exit(a: Roster, room: Id, user: Id): Roster {
    a.(inside := a.inside - {(room, user)})
  }

  function Found(a: Roster, owner: Id, draws: seq<Draw>): Step
    decreases |draws|
  {
    if draws == [] || draws[0].code.None? then Step(a, Failed)
    else if draws[0].id in a.rooms || exists r :: r in a.rooms && Holds(a, r, draws[0].code.value) then
      Found(a, owner, draws[1..])
    else
      Step(Enter(a.(rooms := a.rooms[draws[0].id := Info(draws[0].code.value, owner, false)]), draws[0].id, owner),
          Ok)
  }

  /** Out of everywhere, and the rooms they own are over. */
  function Expel(a: Roster, user: Id): Roster {
    Roster(if user in a.users then a.users[user := false] else a.users,
           a.identities,
           map r | r in a.rooms :: a.rooms[r].(ended := a.rooms[r].ended || a.rooms[r].owner == user),
           set k | k in a.inside && k.1 != user)
  }

  ghost function Act(a: Roster, user: Id, op: MembershipOp): Step {
    match op
    case CreateOp(draws, _, _) => Found(a, user, if |draws| <= 8 then draws else draws[..8])
    case JoinOp(code, _) => if room :| Holds(a, room, code) then Step(Enter(a, room, user), Ok) else Step(a, NotFound)
    case LeaveOp(room, _) => Step(Exit(a, room, user), Ok)
    case KickOp(room, target, _) =>
      if !Runs(a, room, user) then Step(a, Forbidden)
      else if target == user then Step(a, BadRequest)
      else if (room, target) !in a.inside then Step(a, NotFound)
      else Step(Exit(a, room, target), Ok)
    case EndOp(room, _) =>
      if !Runs(a, room, user) then Step(a, Forbidden)
      else if !Open(a, room) then Step(a, NotFound)
      else Step(a.(rooms := a.rooms[room := a.rooms[room].(ended := true)]), Ok)
    case TransferOp(room, target, _) =>
      if !Runs(a, room, user) then Step(a, Forbidden)
      else if target == user then Step(a, BadRequest)
      else if (room, target) !in a.inside then Step(a, Forbidden)
      else if !Open(a, room) then Step(a, NotFound)
      else Step(a.(rooms := a.rooms[room := a.rooms[room].(owner := target)]), Ok)
    case DeleteAccountOp(_) => Step(Expel(a, user), Ok)
  }

  function Register(a: Roster, id: Id): Step {
    if id in a.users then Step(a, Failed) else Step(a.(users := a.users[id := true]), Ok)
  }

  function Erase(a: Roster, user: Id): Roster {
    Roster(a.users - {user},
           KeptIdentities(a.identities, user),
           map r | r in a.rooms && a.rooms[r].owner != user :: a.rooms[r],
           set k | k in a.inside && k.1 != user && !(k.0 in a.rooms && a.rooms[k.0].owner == user))
  }

  /** `erasable` says what the roster does not know: that nothing else refers to the user. */
  function Administer(a: Roster, op: AccountOp, erasable: bool): Step {
    match op
    case GuestOp(id) => Register(a, id)
    case SignInOp(provider, subject, id, _) =>
      if (provider, subject) in a.identities then
        Step(a, if Live(a, a.identities[(provider, subject)]) then Ok else Failed)
      else if id in a.users then Step(a, Failed)
      else Step(Register(a, id).to.(identities := a.identities[(provider, subject) := id]), Ok)
    case AdminDeleteOp(user, _) => Step(Expel(a, user), Ok)
    case RestoreOp(user) => Step(if user in a.users then a.(users := a.users[user := true]) else a, Ok)
    case HardDeleteOp(user) =>
      if user !in a.users then Step(a, Ok) else if erasable then Step(Erase(a, user), Ok) else Step(a, Failed)
  }

  ghost function Next(a: Roster, req: Request, erasable: bool): Roster {
    match req
    case Membership(user, op) => if Live(a, user) then Act(a, user, op).to else a
    case Route(_, _, _) => a
    case Account(op) => Administer(a, op, erasable).to
  }

  // --- what the tables represent ---------------------------------------------------------------

  function InfoOf(row: RoomRow): Info {
    Info(row.code, row.owner, row.endedAt.Some?)
  }

  function RoomsOf(rooms: TI.Rooms): map<Id, Info> {
    map r | r in rooms :: InfoOf(rooms[r])
  }

  function InsideOf(members: Members): set<(Id, Id)> {
    set k | k in members && ActiveMember(members, k.0, k.1)
  }

  function UsersOf(users: TI.Users): map<Id, bool> {
    map u | u in users :: users[u].deletedAt.None?
  }

  function Abs(db: Db): Roster {
    Roster(UsersOf(db.users), db.identities, RoomsOf(db.rooms), InsideOf(db.members))
  }

  lemma PutRoom(rooms: TI.Rooms, r: Id, row: RoomRow)
    ensures RoomsOf(rooms[r := row]) == RoomsOf(rooms)[r := InfoOf(row)]
  {
  }

  lemma PutUser(users: TI.Users, u: Id, row: UserRow)
    ensures UsersOf(users[u := row]) == UsersOf(users)[u := row.deletedAt.None?]
  {
  }

  lemma PutMember(members: Members, k: (Id, Id), row: MemberRow)
    ensures InsideOf(members[k := row]) ==
            if row.leftAt.None? && !row.kicked then InsideOf(members) + {k} else InsideOf(members) - {k}
  {
    var members' := members[k := row];
    forall j ensures j in InsideOf(members') <==> if j == k then row.leftAt.None? && !row.kicked
        else j in InsideOf(members) {
      assert j == (j.0, j.1);
    }
  }

  /** The tests of the code, seen from the roster. */
  lemma TestsAgree(db: Db, room: Id, user: Id)
    requires TI.Inv(db)
    ensures LoadsUser(db.users, user) == Live(Abs(db), user)
    ensures RoomActive(db.rooms, room) == Open(Abs(db), room)
    ensures Listed(db.members, room, user) == ((room, user) in Abs(db).inside)
    ensures ActiveMember(db.members, room, user) == ((room, user) in Abs(db).inside)
    ensures RequireOwner(db.members, room, user) == Runs(Abs(db), room, user)
  {
    assert TI.OwnerRow(db.rooms, db.members, room);
    assert RequireOwner(db.members, room, user) ==> TI.IsOwnerOf(db.rooms, (room, user));
  }

  lemma CodesAgree(db: Db, room: Id, code: string)
    ensures HoldsCode(db.rooms, room, code) == Holds(Abs(db), room, code)
  {
  }

  // --- each request ----------------------------------------------------------------------------

  lemma {:induction false} CreateRefines(db: Db, owner: Id, draws: seq<Draw>, name: Option<string>, now: Time)
    requires TI.Inv(db) && LoadsUser(db.users, owner)
    ensures var o := Create(db, owner, draws, name, now);
            Step(Abs(o.db), o.reply) == Found(Abs(db), owner, draws)
    decreases |draws|
  {
    if draws != [] && draws[0].code.Some? {
      var id, code := draws[0].id, draws[0].code.value;
      CollidesAgrees(db, owner, id, code);
      if Collides(db, owner, id, code) {
        CreateRefines(db, owner, draws[1..], name, now);
      } else {
        PutRoom(db.rooms, id, RoomRow(code, name, owner, now, None, None, None, None, None, None, None));
        PutMember(db.members, (id, owner), MemberRow(Owner, false, now, None));
      }
    }
  }

  lemma CollidesAgrees(db: Db, owner: Id, id: Id, code: string)
    requires TI.Inv(db)
    ensures Collides(db, owner, id, code) <==>
            var a := Abs(db); id in a.rooms || exists r :: r in a.rooms && Holds(a, r, code)
  {
    forall r ensures HoldsCode(db.rooms, r, code) == Holds(Abs(db), r, code) {
      CodesAgree(db, r, code);
    }
  }

  lemma JoinRefines(db: Db, user: Id, code: string, now: Time)
    requires TI.Inv(db)
    ensures var o := Join(db, user, code, now);
            Step(Abs(o.db), o.reply) == Act(Abs(db), user, JoinOp(code, now))
  {
    forall r ensures HoldsCode(db.rooms, r, code) == Holds(Abs(db), r, code) {
      CodesAgree(db, r, code);
    }
    match RoomByCode(db, code)
    case None =>
    case Some(room) =>
      assert Holds(Abs(db), room, code);
      assert forall r :: Holds(Abs(db), r, code) ==> r == room;
      var was := if (room, user) in db.members then db.members[(room, user)] else MemberRow(Member, false, now, None);
      PutMember(db.members, (room, user), was.(leftAt := None, kicked := false));
  }

  lemma LeaveRefines(db: Db, room: Id, user: Id, now: Time)
    requires TI.Inv(db)
    ensures Abs(Leave(db, room, user, now).db) == Exit(Abs(db), room, user)
  {
    TestsAgree(db, room, user);
    if Listed(db.members, room, user) {
      PutMember(db.members, (room, user), db.members[(room, user)].(leftAt := Some(now)));
    }
  }

  lemma KickRefines(db: Db, room: Id, actor: Id, target: Id, now: Time)
    requires TI.Inv(db)
    ensures var o := Kick(db, room, actor, target, now);
            Step(Abs(o.db), o.reply) == Act(Abs(db), actor, KickOp(room, target, now))
  {
    TestsAgree(db, room, actor);
    TestsAgree(db, room, target);
    if Listed(db.members, room, target) {
      PutMember(db.members, (room, target), db.members[(room, target)].(kicked := true, leftAt := Some(now)));
    }
  }

  lemma EndRefines(db: Db, room: Id, actor: Id, now: Time)
    requires TI.Inv(db)
    ensures var o := EndRoom(db, room, actor, now);
            Step(Abs(o.db), o.reply) == Act(Abs(db), actor, EndOp(room, now))
  {
    TestsAgree(db, room, actor);
    if RoomActive(db.rooms, room) {
      PutRoom(db.rooms, room, db.rooms[room].(endedAt := Some(now)));
    }
  }

  lemma HandOverRefines(db: Db, room: Id, actor: Id, target: Id)
    requires room in db.rooms && actor != target
    requires ActiveMember(db.members, room, actor) && ActiveMember(db.members, room, target)
    ensures var a := Abs(db);
            Abs(HandOver(db, room, actor, target)) == a.(rooms := a.rooms[room := a.rooms[room].(owner := target)])
  {
    var promoted := db.members[(room, target) := db.members[(room, target)].(role := Owner)];
    PutRoom(db.rooms, room, db.rooms[room].(owner := target));
    PutMember(db.members, (room, target), db.members[(room, target)].(role := Owner));
    PutMember(promoted, (room, actor), promoted[(room, actor)].(role := Member));
    assert (room, target) in InsideOf(db.members) && (room, actor) in InsideOf(db.members);
  }

  lemma TransferRefines(db: Db, room: Id, actor: Id, target: Id, now: Time)
    requires TI.Inv(db)
    ensures var o := Transfer(db, room, actor, target, now);
            Step(Abs(o.db), o.reply) == Act(Abs(db), actor, TransferOp(room, target, now))
  {
    TestsAgree(db, room, actor);
    TestsAgree(db, room, target);
    var kept := KeepDestination(db, room, actor, now);
    assert Abs(kept) == Abs(db) && kept.members == db.members && kept.rooms == db.rooms;
    if && RequireOwner(db.members, room, actor) && actor != target
       && ActiveMember(db.members, room, target) && RoomActive(db.rooms, room) {
      HandOverRefines(kept, room, actor, target);
    }
  }

  lemma ExpelUsers(users: TI.Users, users': TI.Users, user: Id)
    requires users'.Keys == users.Keys
    requires forall u :: TI.Deleted(users', u) <==> TI.Deleted(users, u) || (u == user && u in users)
    ensures UsersOf(users') == if user in users then UsersOf(users)[user := false] else UsersOf(users)
  {
    assert forall u :: u in users ==> (users'[u].deletedAt.None? <==> !TI.Deleted(users', u));
    assert forall u :: u in users ==> (users[u].deletedAt.None? <==> !TI.Deleted(users, u));
  }

  lemma ExpelRooms(rooms: TI.Rooms, rooms': TI.Rooms, user: Id)
    requires rooms'.Keys == rooms.Keys
    requires forall r :: r in rooms ==> TI.RoomEnded(rooms[r], rooms'[r], user)
    ensures RoomsOf(rooms') ==
            map r | r in RoomsOf(rooms) ::
              RoomsOf(rooms)[r].(ended := RoomsOf(rooms)[r].ended || RoomsOf(rooms)[r].owner == user)
  {
    assert forall r :: r in rooms ==> TI.RoomEnded(rooms[r], rooms'[r], user);
  }

  lemma ExpelRefines(db: Db, user: Id, now: Time)
    ensures Abs(SoftDelete(db, user, now)) == Expel(Abs(db), user)
  {
    var db' := SoftDelete(db, user, now);
    TI.SoftDeletes(db, user, now);
    ExpelUsers(db.users, db'.users, user);
    ExpelRooms(db.rooms, db'.rooms, user);
    ExpelInside(db.members, db'.members, user);
  }

  lemma ExpelInside(members: Members, members': Members, user: Id)
    requires members'.Keys == members.Keys
    requires forall k :: k in members ==> TI.MemberKicked(members[k], members'[k], k.1 == user)
    ensures InsideOf(members') == set k | k in InsideOf(members) && k.1 != user
  {
    forall k ensures k in InsideOf(members') <==> k in InsideOf(members) && k.1 != user {
      if k in members {
        assert TI.MemberKicked(members[k], members'[k], k.1 == user);
        assert k == (k.0, k.1);
      }
    }
  }

  lemma EraseInside(rooms: TI.Rooms, members: Members, user: Id)
    requires forall k :: k in members ==> k.0 in rooms
    ensures InsideOf(KeptRows(members, user, KeptRooms(rooms, user).Keys)) ==
            set k | k in InsideOf(members) && k.1 != user && !(k.0 in RoomsOf(rooms)
                && RoomsOf(rooms)[k.0].owner == user)
  {
    var kept := KeptRows(members, user, KeptRooms(rooms, user).Keys);
    forall k ensures k in InsideOf(kept) <==>
                     k in InsideOf(members) && k.1 != user && !(k.0 in rooms && rooms[k.0].owner == user) {
      assert k == (k.0, k.1);
    }
  }

  /** The hard delete of `req` meets no reference without a cascade. */
  predicate Erasable(db: Db, req: Request) {
    req.Account? && req.act.HardDeleteOp? && !StillReferenced(db, req.act.user)
  }

  lemma AccountRefines(db: Db, op: AccountOp)
    requires TI.Inv(db)
    ensures var o := ServeAccount(db, op);
            Step(Abs(o.db), o.reply) == Administer(Abs(db), op, Erasable(db, Account(op)))
  {
    match op
    case GuestOp(id) => PutUser(db.users, id, UserRow(None, None));
    case SignInOp(provider, subject, id, email) => SignInRefines(db, provider, subject, id, email);
    case AdminDeleteOp(user, now) => ExpelRefines(db, user, now);
    case RestoreOp(user) => if user in db.users { PutUser(db.users, user, db.users[user].(deletedAt := None)); }
    case HardDeleteOp(user) =>
      EraseInside(db.rooms, db.members, user);
      EraseRooms(db, user);
  }

  lemma EraseRooms(db: Db, user: Id)
    ensures RoomsOf(Cascade(db, user).rooms) == Erase(Abs(db), user).rooms
    ensures UsersOf(Cascade(db, user).users) == UsersOf(db.users) - {user}
  {
  }

  lemma SignInRefines(db: Db, provider: string, subject: string, id: Id, email: Option<string>)
    ensures var o := SignIn(db, provider, subject, id, email);
            Step(Abs(o.db), o.reply) == Administer(Abs(db), SignInOp(provider, subject, id, email), false)
  {
    if (provider, subject) in db.identities {
      var user := db.identities[(provider, subject)];
      if LoadsUser(db.users, user) {
        PutUser(db.users, user, db.users[user].(email := email));
        assert UsersOf(db.users)[user := true] == UsersOf(db.users);
      }
    } else {
      PutUser(db.users, id, UserRow(email, None));
    }
  }

  lemma MembershipRefines(db: Db, user: Id, op: MembershipOp)
    requires TI.Inv(db) && LoadsUser(db.users, user)
    ensures var o := ServeMembership(db, user, op);
            Step(Abs(o.db), o.reply) == Act(Abs(db), user, op)
  {
    match op
    case CreateOp(draws, name, now) => CreateRefines(db, user, Taken(draws), name, now);
    case JoinOp(code, now) => JoinRefines(db, user, code, now);
    case LeaveOp(room, now) => LeaveRefines(db, room, user, now);
    case KickOp(room, target, now) => KickRefines(db, room, user, target, now);
    case EndOp(room, now) => EndRefines(db, room, user, now);
    case TransferOp(room, target, now) => TransferRefines(db, room, user, target, now);
    case DeleteAccountOp(now) => ExpelRefines(db, user, now);
  }

  lemma RouteRefines(db: Db, user: Id, room: Id, op: RouteOp)
    ensures Abs(ServeRoute(db, user, room, op).db) == Abs(db)
  {
    TI.RouteFrame(db, user, room, op);
    var db' := ServeRoute(db, user, room, op).db;
    if db'.rooms != db.rooms {
      PutRoom(db.rooms, room, db'.rooms[room]);
      assert RoomsOf(db.rooms)[room := InfoOf(db'.rooms[room])] == RoomsOf(db.rooms);
    }
  }

  lemma RequestRefines(db: Db, req: Request)
    requires TI.Inv(db)
    ensures Abs(Handle(db, req).db) == Next(Abs(db), req, Erasable(db, req))
  {
    match req
    case Membership(user, op) =>
      TestsAgree(db, 0, user);
      if LoadsUser(db.users, user) {
        MembershipRefines(db, user, op);
      }
    case Route(user, room, op) => RouteRefines(db, user, room, op);
    case Account(op) => AccountRefines(db, op);
  }

  // --- runs --------------------------------------------------------------------------------------

  ghost function Run(a: Roster, db: Db, reqs: seq<Request>): Roster
    decreases |reqs|
  {
    if reqs == [] then a else Run(Next(a, reqs[0], Erasable(db, reqs[0])), Handle(db, reqs[0]).db, reqs[1..])
  }

  /** The tables refine the roster: over every run of requests, the accounts that live, the
      rooms with their codes, owners and ends, and the users inside are exactly those of
      the plain machine. */
  lemma {:induction false} RunRefines(db: Db, reqs: seq<Request>)
    requires TI.Inv(db)
    ensures Abs(HandleAll(db, reqs)) == Run(Abs(db), db, reqs)
    decreases |reqs|
  {
    if reqs != [] {
      RequestRefines(db, reqs[0]);
      TI.HandleKeeps(db, reqs[0]);
      RunRefines(Handle(db, reqs[0]).db, reqs[1..]);
    }
  }

  lemma RunFromNothing(reqs: seq<Request>)
    ensures Abs(HandleAll(EMPTY, reqs)) == Run(NOBODY, EMPTY, reqs)
  {
    RT.EmptyInv();
    RunRefines(EMPTY, reqs);
    assert Abs(EMPTY) == NOBODY;
  }
}
