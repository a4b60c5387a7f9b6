/** Runs on which the admin's delete, which is not a transaction, may stop after any of its
    three updates. Ownership, codes and kicked-implies-left survive every such run; each
    deleted account is out except after a delete of its own that stopped, and a delete that
    goes through puts it out again. */
module StoppedDeletes {
  import opened Types
  import opened Tables
  import TI = TableInvariants
  import RT = RoomTheorems

  /** A request, or a delete of which the first `done` updates happened. */
  datatype Act = Served(req: Request) | Stopped(user: Id, now: Time, done: nat)

  ghost function Apply(db: Db, a: Act): Db {
    match a
    case Served(req) => Handle(db, req).db
    case Stopped(user, now, done) => AdminDelete(db, user, now, done)
  }

  ghost function Run(db: Db, acts: seq<Act>): Db
    decreases |acts|
  {
    if acts == [] then db else Run(Apply(db, acts[0]), acts[1..])
  }

  /** What does not depend on who is deleted. */
  ghost predicate Core(db: Db) {
    && TI.Owners(db.rooms, db.members)
    && TI.KickedLeft(db.members) && TI.CodesUnique(db.rooms) && TI.Refs(db.users, db.rooms, db.members)
  }

  /** If the account is deleted, it is listed nowhere and owns no active room. */
  ghost predicate Out(db: Db, user: Id) {
    TI.Deleted(db.users, user) ==>
      && (forall k :: k in db.members && k.1 == user ==> db.members[k].leftAt.Some?)
      && (forall r :: RoomActive(db.rooms, r) ==> db.rooms[r].owner != user)
  }

  // --- one account at a time --------------------------------------------------------------------

  /** The accounts as if nobody but `user` had been deleted. */
  function Mask(users: TI.Users, user: Option<Id>): TI.Users {
    map u | u in users :: if user == Some(u) then users[u] else users[u].(deletedAt := None)
  }

  function Masked(db: Db, user: Option<Id>): Db {
    db.(users := Mask(db.users, user))
  }

  lemma MaskDeletes(users: TI.Users, user: Option<Id>, u: Id)
    ensures TI.Deleted(Mask(users, user), u) <==> user == Some(u) && TI.Deleted(users, u)
    ensures LoadsUser(users, u) ==> LoadsUser(Mask(users, user), u)
  {
  }

  lemma MaskedOut(users: TI.Users, rooms: TI.Rooms, members: Members, user: Option<Id>)
    ensures TI.DeletedOut(Mask(users, user), rooms, members) <==>
            user.Some? && TI.Deleted(users, user.value) ==>
              && (forall k :: k in members && k.1 == user.value ==> members[k].leftAt.Some?)
              && (forall r :: RoomActive(rooms, r) ==> rooms[r].owner != user.value)
  {
    forall u: Id ensures TI.Deleted(Mask(users, user), u) <==> user == Some(u) && TI.Deleted(users, u) {
      MaskDeletes(users, user, u);
    }
  }

  /** The invariant of the masked tables is the core and that one account. */
  lemma MaskedInv(db: Db, user: Option<Id>)
    ensures TI.Inv(Masked(db, user)) <==> Core(db) && (user.Some? ==> Out(db, user.value))
  {
    MaskedOut(db.users, db.rooms, db.members, user);
    assert Mask(db.users, user).Keys == db.users.Keys;
  }

  /** Fewer deleted accounts need less. */
  lemma Unmask(db: Db, other: Db, user: Option<Id>)
    requires TI.Inv(other) && other.rooms == db.rooms && other.members == db.members
    requires other.users.Keys <= db.users.Keys
    requires forall u :: user == Some(u) && TI.Deleted(db.users, u) ==> TI.Deleted(other.users, u)
    ensures Core(db) && (user.Some? ==> Out(db, user.value))
  {
    forall u: Id ensures TI.Deleted(Mask(db.users, user), u) ==> TI.Deleted(other.users, u) {
      MaskDeletes(db.users, user, u);
    }
    TI.UsersKeep(other, Mask(db.users, user));
    MaskedInv(db, user);
    assert other.(users := Mask(db.users, user)).rooms == db.rooms;
  }

  // --- requests -----------------------------------------------------------------------------------

  lemma {:induction false} CreateBlind(db: Db, users: TI.Users, owner: Id, draws: seq<Draw>, name: Option<string>,
                                       now: Time)
    requires owner in users && owner in db.users
    ensures Create(db.(users := users), owner, draws, name, now).db ==
            Create(db, owner, draws, name, now).db.(users := users)
    decreases |draws|
  {
    if draws != [] && draws[0].code.Some? {
      var id, code := draws[0].id, draws[0].code.value;
      assert Collides(db.(users := users), owner, id, code) == Collides(db, owner, id, code);
      if Collides(db, owner, id, code) {
        CreateBlind(db, users, owner, draws[1..], name, now);
      }
    }
  }

  lemma CodeBlind(db: Db, users: TI.Users, code: string)
    requires TI.CodesUnique(db.rooms)
    ensures RoomByCode(db.(users := users), code) == RoomByCode(db, code)
  {
    if r :| HoldsCode(db.rooms, r, code) {
      assert HoldsCode(db.(users := users).rooms, r, code);
    }
  }

  lemma JoinBlind(db: Db, users: TI.Users, user: Id, code: string, now: Time)
    requires TI.CodesUnique(db.rooms)
    ensures Join(db.(users := users), user, code, now).db == Join(db, user, code, now).db.(users := users)
  {
    CodeBlind(db, users, code);
  }

  lemma HandOverBlind(db: Db, users: TI.Users, room: Id, actor: Id, target: Id)
    requires room in db.rooms && (room, target) in db.members
    ensures HandOver(db.(users := users), room, actor, target) == HandOver(db, room, actor, target).(users := users)
  {
  }

  lemma KeepBlind(db: Db, users: TI.Users, room: Id, actor: Id, now: Time)
    ensures KeepDestination(db.(users := users), room, actor, now) ==
            KeepDestination(db, room, actor, now).(users := users)
    ensures KeepDestination(db, room, actor, now).rooms == db.rooms
    ensures KeepDestination(db, room, actor, now).members == db.members
  {
  }

  lemma TransferBlind(db: Db, users: TI.Users, room: Id, actor: Id, target: Id, now: Time)
    ensures Transfer(db.(users := users), room, actor, target, now).db ==
            Transfer(db, room, actor, target, now).db.(users := users)
  {
    KeepBlind(db, users, room, actor, now);
    if ActiveMember(db.members, room, target) && RoomActive(db.rooms, room) {
      HandOverBlind(KeepDestination(db, room, actor, now), users, room, actor, target);
    }
  }

  /** Membership requests do not look at who else is deleted. */
  lemma MembershipBlind(db: Db, users: TI.Users, user: Id, op: MembershipOp)
    requires TI.CodesUnique(db.rooms) && user in users && user in db.users && !op.DeleteAccountOp?
    ensures ServeMembership(db.(users := users), user, op).db == ServeMembership(db, user, op).db.(users := users)
  {
    match op
    case CreateOp(draws, name, now) => CreateBlind(db, users, user, Taken(draws), name, now);
    case JoinOp(code, now) => JoinBlind(db, users, user, code, now);
    case TransferOp(room, target, now) => TransferBlind(db, users, room, user, target, now);
    case _ =>
  }

  lemma MembershipUsers(db: Db, user: Id, op: MembershipOp)
    requires !op.DeleteAccountOp?
    ensures ServeMembership(db, user, op).db.users == db.users
  {
    RT.MembershipUsers(db, user, op);
  }

  /** What both deletion paths do to the accounts: `gone` is deleted, nobody else changes. */
  lemma SoftDeleteUsers(db: Db, gone: Id, now: Time)
    ensures var users := SoftDelete(db, gone, now).users;
            && users.Keys == db.users.Keys
            && (forall u :: TI.Deleted(users, u) <==> TI.Deleted(db.users, u) || (u == gone && u in db.users))
  {
    TI.SoftDeletes(db, gone, now);
  }

  lemma DeleteKeeps(db: Db, gone: Id, now: Time, user: Option<Id>)
    requires TI.Inv(Masked(db, user))
    ensures TI.Inv(Masked(SoftDelete(db, gone, now), user))
  {
    var other := Masked(db, user);
    TI.SoftDeleteKeeps(other, gone, now);
    SoftDeleteUsers(db, gone, now);
    SoftDeleteUsers(other, gone, now);
    forall u: Id ensures TI.Deleted(other.users, u) <==> user == Some(u) && TI.Deleted(db.users, u) {
      MaskDeletes(db.users, user, u);
    }
    SoftDeleteBlind(db, other.users, gone, now);
    Unmask(SoftDelete(db, gone, now), SoftDelete(other, gone, now), user);
    MaskedInv(SoftDelete(db, gone, now), user);
  }

  lemma SoftDeleteBlind(db: Db, users: TI.Users, gone: Id, now: Time)
    ensures var o, p := SoftDelete(db, gone, now), SoftDelete(db.(users := users), gone, now);
            o.rooms == p.rooms && o.members == p.members
  {
    assert StampDeleted(db, gone, now).rooms == db.rooms && StampDeleted(db, gone, now).members == db.members;
    RowsBlind(StampDeleted(db, gone, now), StampDeleted(db.(users := users), gone, now), gone, now);
  }

  lemma RowsBlind(a: Db, b: Db, gone: Id, now: Time)
    requires a.rooms == b.rooms && a.members == b.members
    ensures EndOwned(a, gone, now).rooms == EndOwned(b, gone, now).rooms
    ensures KickEverywhere(EndOwned(a, gone, now), gone, now).members ==
            KickEverywhere(EndOwned(b, gone, now), gone, now).members
  {
  }

  lemma MembershipKeeps(db: Db, user: Id, op: MembershipOp, who: Option<Id>)
    requires TI.Inv(Masked(db, who)) && LoadsUser(db.users, user)
    ensures TI.Inv(Masked(ServeMembership(db, user, op).db, who))
  {
    if op.DeleteAccountOp? {
      DeleteKeeps(db, user, op.now, who);
    } else {
      MaskDeletes(db.users, who, user);
      TI.MembershipKeeps(Masked(db, who), user, op);
      MembershipBlind(db, Mask(db.users, who), user, op);
      MembershipUsers(db, user, op);
    }
  }

  lemma RouteKeeps(db: Db, user: Id, room: Id, op: RouteOp, who: Option<Id>)
    requires TI.Inv(Masked(db, who))
    ensures TI.Inv(Masked(ServeRoute(db, user, room, op).db, who))
  {
    TI.RouteFrame(db, user, room, op);
    var db' := ServeRoute(db, user, room, op).db;
    if db'.rooms != db.rooms {
      TI.RoomEditKeeps(Mask(db.users, who), db.rooms, db.members, room, db'.rooms[room]);
    }
  }

  /** Accounts come into being, are edited or come back. */
  lemma UsersKeep(db: Db, users: TI.Users, who: Option<Id>)
    requires TI.Inv(Masked(db, who)) && db.users.Keys <= users.Keys
    requires forall u :: TI.Deleted(users, u) ==> TI.Deleted(db.users, u)
    ensures TI.Inv(Masked(db.(users := users), who))
  {
    forall u: Id ensures TI.Deleted(Mask(users, who), u) ==> TI.Deleted(Mask(db.users, who), u) {
      MaskDeletes(users, who, u);
      MaskDeletes(db.users, who, u);
    }
    TI.UsersKeep(Masked(db, who), Mask(users, who));
    assert Masked(db, who).(users := Mask(users, who)) == Masked(db.(users := users), who);
  }

  lemma EraseKeeps(db: Db, user: Id, who: Option<Id>)
    requires TI.Inv(Masked(db, who))
    ensures TI.Inv(Masked(Cascade(db, user), who))
  {
    TI.CascadeOwners(Masked(db, who), user);
    TI.CascadeStanding(Masked(db, who), user);
    assert Mask(Cascade(db, user).users, who) == Cascade(Masked(db, who), user).users;
  }

  /** One account row is new or is edited without becoming deleted. */
  lemma PutUserKeeps(db: Db, id: Id, row: UserRow, who: Option<Id>)
    requires TI.Inv(Masked(db, who)) && row.deletedAt.None?
    ensures TI.Inv(Masked(db.(users := db.users[id := row]), who))
  {
    TI.PutUser(db.users, id, row);
    UsersKeep(db, db.users[id := row], who);
  }

  lemma SignInKeeps(db: Db, provider: string, subject: string, id: Id, email: Option<string>, who: Option<Id>)
    requires TI.Inv(Masked(db, who))
    ensures TI.Inv(Masked(SignIn(db, provider, subject, id, email).db, who))
  {
    var k := (provider, subject);
    if k !in db.identities {
      PutUserKeeps(db, id, UserRow(email, None), who);
    } else if LoadsUser(db.users, db.identities[k]) {
      PutUserKeeps(db, db.identities[k], db.users[db.identities[k]].(email := email), who);
    }
  }

  lemma AccountKeeps(db: Db, op: AccountOp, who: Option<Id>)
    requires TI.Inv(Masked(db, who))
    ensures TI.Inv(Masked(ServeAccount(db, op).db, who))
  {
    match op
    case GuestOp(id) =>
      PutUserKeeps(db, id, UserRow(None, None), who);
    case SignInOp(provider, subject, id, email) => SignInKeeps(db, provider, subject, id, email, who);
    case AdminDeleteOp(user, now) => DeleteKeeps(db, user, now, who);
    case RestoreOp(user) =>
      if user in db.users {
        PutUserKeeps(db, user, db.users[user].(deletedAt := None), who);
      }
    case HardDeleteOp(user) => EraseKeeps(db, user, who);
  }

  lemma RequestKeeps(db: Db, req: Request, who: Option<Id>)
    requires TI.Inv(Masked(db, who))
    ensures TI.Inv(Masked(Handle(db, req).db, who))
  {
    match req
    case Membership(user, op) => if LoadsUser(db.users, user) { MembershipKeeps(db, user, op, who); }
    case Route(user, room, op) => if LoadsUser(db.users, user) { RouteKeeps(db, user, room, op, who); }
    case Account(op) => AccountKeeps(db, op, who);
  }

  // --- stopped deletes ------------------------------------------------------------------------------

  lemma StampKeeps(db: Db, gone: Id, now: Time, who: Option<Id>)
    requires TI.Inv(Masked(db, who)) && who != Some(gone)
    ensures TI.Inv(Masked(StampDeleted(db, gone, now), who))
  {
    assert Mask(StampDeleted(db, gone, now).users, who) == Mask(db.users, who);
  }

  lemma EndOwnedKeeps(db: Db, gone: Id, now: Time)
    requires TI.Inv(db)
    ensures TI.Inv(EndOwned(db, gone, now))
  {
    var db' := EndOwned(db, gone, now);
    RT.EndOwnedRooms(db, gone, now);
    assert forall r :: r in db.rooms ==>
      db'.rooms[r].owner == db.rooms[r].owner && db'.rooms[r].code == db.rooms[r].code;
    assert forall k :: TI.IsOwnerOf(db'.rooms, k) == TI.IsOwnerOf(db.rooms, k);
    assert forall r, c :: HoldsCode(db'.rooms, r, c) ==> HoldsCode(db.rooms, r, c);
    forall r ensures TI.OwnerRow(db'.rooms, db'.members, r) {
      assert TI.OwnerRow(db.rooms, db.members, r);
    }
  }

  lemma StoppedKeeps(db: Db, gone: Id, now: Time, done: nat, who: Option<Id>)
    requires TI.Inv(Masked(db, who)) && (who == Some(gone) ==> done == 0 || done >= 3)
    ensures TI.Inv(Masked(AdminDelete(db, gone, now, done), who))
  {
    if done >= 3 {
      DeleteKeeps(db, gone, now, who);
    } else if done > 0 {
      StampKeeps(db, gone, now, who);
      if done == 2 {
        var stamped := StampDeleted(db, gone, now);
        EndOwnedKeeps(Masked(stamped, who), gone, now);
        assert EndOwned(Masked(stamped, who), gone, now) == Masked(EndOwned(stamped, gone, now), who);
      }
    }
  }

  // --- runs -----------------------------------------------------------------------------------------

  /** The act stops a delete of this account half way. */
  predicate StopsShort(a: Act, user: Id) {
    a.Stopped? && a.user == user && 0 < a.done < 3
  }

  lemma ActKeeps(db: Db, a: Act, who: Option<Id>)
    requires TI.Inv(Masked(db, who)) && (who.Some? ==> !StopsShort(a, who.value))
    ensures TI.Inv(Masked(Apply(db, a), who))
  {
    match a
    case Served(req) => RequestKeeps(db, req, who);
    case Stopped(user, now, done) => StoppedKeeps(db, user, now, done, who);
  }

  lemma {:induction false} RunKeeps(db: Db, acts: seq<Act>, who: Option<Id>)
    requires TI.Inv(Masked(db, who))
    requires forall i :: 0 <= i < |acts| && who.Some? ==> !StopsShort(acts[i], who.value)
    ensures TI.Inv(Masked(Run(db, acts), who))
    decreases |acts|
  {
    if acts != [] {
      ActKeeps(db, acts[0], who);
      RunKeeps(Apply(db, acts[0]), acts[1..], who);
    }
  }

  /** Over every run, wherever deletes stop, each room has exactly one owner row, that of its
      owner column, which is not kicked while the room is active; kicked implies left; and
      at most one active room holds a code. */
  lemma CoreSurvives(acts: seq<Act>)
    ensures Core(Run(EMPTY, acts))
  {
    RT.EmptyInv();
    MaskedInv(EMPTY, None);
    RunKeeps(EMPTY, acts, None);
    MaskedInv(Run(EMPTY, acts), None);
  }

  /** A delete that goes through puts the account out, whatever stopped before. */
  lemma DeletePutsOut(db: Db, user: Id, now: Time)
    requires Core(db)
    ensures Out(SoftDelete(db, user, now), user)
  {
    var db' := SoftDelete(db, user, now);
    TI.SoftDeletes(db, user, now);
    forall k | k in db'.members && k.1 == user ensures db'.members[k].leftAt.Some? {
      assert TI.MemberKicked(db.members[k], db'.members[k], true);
    }
    forall r | RoomActive(db'.rooms, r) ensures db'.rooms[r].owner != user {
      assert TI.RoomEnded(db.rooms[r], db'.rooms[r], user);
    }
  }

  /** So over every run, an account is out once a delete of it has gone through, or if none
      of it ever stopped, and stays out until one stops short. */
  lemma RepeatedDeleteRestores(before: seq<Act>, user: Id, now: Time, after: seq<Act>)
    requires forall i :: 0 <= i < |after| ==> !StopsShort(after[i], user)
    ensures Out(Run(SoftDelete(Run(EMPTY, before), user, now), after), user)
  {
    CoreSurvives(before);
    var db := SoftDelete(Run(EMPTY, before), user, now);
    DeletePutsOut(Run(EMPTY, before), user, now);
    MaskedInv(Run(EMPTY, before), None);
    DeleteKeeps(Run(EMPTY, before), user, now, None);
    MaskedInv(db, None);
    MaskedInv(db, Some(user));
    RunKeeps(db, after, Some(user));
    MaskedInv(Run(db, after), Some(user));
  }

  lemma NeverStoppedIsOut(acts: seq<Act>, user: Id)
    requires forall i :: 0 <= i < |acts| ==> !StopsShort(acts[i], user)
    ensures Out(Run(EMPTY, acts), user)
  {
    RT.EmptyInv();
    MaskedInv(EMPTY, Some(user));
    RunKeeps(EMPTY, acts, Some(user));
    MaskedInv(Run(EMPTY, acts), Some(user));
  }
}
