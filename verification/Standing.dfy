/** Who may be in a room after a run, read off the run's requests: a user stands in a room
    from their own join or creation of it until something puts them out. From this the exact
    condition under which an open socket belongs. */
module Standing {
  import opened Types
  import T = Tables
  import TI = TableInvariants
  import RT = RoomTheorems
  import opened World
  import opened Belonging
  import opened OpenSockets

  /** The request lets the user into the room: their own join by its code, or their own
      creation of it. */
  ghost predicate Grants(db: T.Db, req: T.Request, room: Id, user: Id) {
    && req.Membership? && req.user == user && T.LoadsUser(db.users, user)
    && match req.op
       case JoinOp(code, _) => T.HoldsCode(db.rooms, room, code)
       case CreateOp(draws, _, _) => Founds(db, user, T.Taken(draws), room)
       case _ => false
  }

  /** The first free draw is for this room. */
  ghost predicate Founds(db: T.Db, user: Id, draws: seq<T.Draw>, room: Id) {
    exists i: nat :: RT.FirstFree(db, user, draws, i) && draws[i].id == room
  }

  /** Whether the user stands in the room after the event, given whether they did before. */
  ghost predicate StandsAfter(db: T.Db, e: Event, room: Id, user: Id, before: bool) {
    if !e.Rest? then before
    else if before then !Removes(db, e.req, room, user) && !Blamed(db, e, room, user)
    else Grants(db, e.req, room, user)
  }

  ghost predicate Stands(w: World, events: seq<Event>, room: Id, user: Id, before: bool)
    decreases |events|
  {
    if events == [] then before
    else Stands(Next(w, events[0]), events[1..], room, user, StandsAfter(w.db, events[0], room, user, before))
  }

  // --- deletions, exactly --------------------------------------------------------------------

  lemma SoftDeletionIff(db: T.Db, gone: Id, now: Time, room: Id, user: Id)
    requires MayBeThere(db, room, user)
    ensures MayBeThere(T.SoftDelete(db, gone, now), room, user) <==> user != gone && db.rooms[room].owner != gone
  {
    TI.SoftDeletes(db, gone, now);
    DeletionExpels(db, T.SoftDelete(db, gone, now), gone, room, user);
  }

  lemma HardDeletionIff(db: T.Db, gone: Id, room: Id, user: Id)
    requires TI.Inv(db) && MayBeThere(db, room, user)
    ensures MayBeThere(T.HardDelete(db, gone).db, room, user) <==>
            T.StillReferenced(db, gone) || (user != gone && db.rooms[room].owner != gone)
  {
    ErasureExpels(db, gone, room, user);
  }

  lemma DeletionLeavesHub(w: World, e: Event)
    requires Deletes(e).Some?
    ensures Next(w, e) == w.(db := T.Handle(w.db, e.req).db)
  {
  }

  /** No deletion of an account reaches the hub: it leaves every socket as it is and owes no
      call. The user of an open socket may still be there afterwards if and only if it does
      not take effect on their account or the room owner's. */
  lemma DeletionSafeIff(w: World, e: Event, room: Id, user: Id)
    requires TI.Inv(w.db) && MayBeThere(w.db, room, user) && Deletes(e).Some?
    ensures Next(w, e).sys == w.sys && Next(w, e).calls == w.calls
    ensures MayBeThere(Next(w, e).db, room, user) <==> !Blamed(w.db, e, room, user)
  {
    DeletionLeavesHub(w, e);
    match e
    case Rest(Membership(gone, DeleteAccountOp(now))) => SoftDeletionIff(w.db, gone, now, room, user);
    case Rest(Account(AdminDeleteOp(gone, now))) => SoftDeletionIff(w.db, gone, now, room, user);
    case Rest(Account(HardDeleteOp(gone))) => HardDeletionIff(w.db, gone, room, user);
    case _ =>
  }

  // --- one request ----------------------------------------------------------------------------

  /** Whoever leaves, is kicked or sees the room end is out. */
  lemma RemovalPutsOut(db: T.Db, req: T.Request, room: Id, user: Id)
    requires Removes(db, req, room, user)
    ensures !MayBeThere(T.Handle(db, req).db, room, user)
  {
  }

  /** Whoever may be there stays if and only if the request neither puts them out nor deletes
      their account or the room owner's. */
  lemma StaysIff(db: T.Db, req: T.Request, room: Id, user: Id)
    requires TI.Inv(db) && MayBeThere(db, room, user)
    ensures MayBeThere(T.Handle(db, req).db, room, user) <==>
            !Removes(db, req, room, user) && !Blamed(db, Rest(req), room, user)
  {
    if Removes(db, req, room, user) {
      RemovalPutsOut(db, req, room, user);
    } else if Deletes(Rest(req)).Some? {
      DeletionSafeIff(INIT.(db := db), Rest(req), room, user);
    } else {
      RequestStays(db, req, room, user);
    }
  }

  /** A room that is new with `Create` is the one of the first free draw. */
  lemma {:induction false} CreateGrantsIff(db: T.Db, owner: Id, draws: seq<T.Draw>, name: Option<string>, now: Time,
                                           room: Id, user: Id)
    requires TI.Inv(db) && owner in db.users && !MayBeThere(db, room, user)
    ensures MayBeThere(T.Create(db, owner, draws, name, now).db, room, user) <==>
            user == owner && Founds(db, owner, draws, room)
    decreases |draws|
  {
    if i: nat :| RT.FirstFree(db, owner, draws, i) {
      RT.CreateAllOrNothing(db, owner, draws, name, now, i);
      FirstFreeUnique(db, owner, draws, i);
      InsertGrantsIff(db, owner, draws[i].id, draws[i].code.value, name, now, room, user);
    } else {
      RT.CreateAllOrNothing(db, owner, draws, name, now, 0);
    }
  }

  lemma FirstFreeUnique(db: T.Db, owner: Id, draws: seq<T.Draw>, i: nat)
    requires RT.FirstFree(db, owner, draws, i)
    ensures forall k: nat :: RT.FirstFree(db, owner, draws, k) ==> k == i
  {
  }

  lemma InsertGrantsIff(db: T.Db, owner: Id, id: Id, code: string, name: Option<string>, now: Time, room: Id, user: Id)
    requires TI.Inv(db) && id !in db.rooms && !MayBeThere(db, room, user)
    ensures MayBeThere(T.InsertRoom(db, owner, id, code, name, now), room, user) <==> user == owner && room == id
  {
    assert (id, user) !in db.members;
  }

  lemma JoinGrantsIff(db: T.Db, user: Id, code: string, now: Time, room: Id, u: Id)
    requires TI.Inv(db) && !MayBeThere(db, room, u)
    ensures MayBeThere(T.Join(db, user, code, now).db, room, u) <==> u == user && T.HoldsCode(db.rooms, room, code)
  {
    RT.CodeNamesOneRoom(db, code, room);
  }

  lemma OthersGrantNothing(db: T.Db, user: Id, op: T.MembershipOp, room: Id, u: Id)
    requires TI.Inv(db) && !MayBeThere(db, room, u) && T.LoadsUser(db.users, user)
    requires !op.CreateOp? && !op.JoinOp? && !op.DeleteAccountOp?
    ensures !MayBeThere(T.ServeMembership(db, user, op).db, room, u)
  {
    if op.TransferOp? {
      TransferGrantsNothing(db, op.room, user, op.target, op.now, room, u);
    }
  }

  /** Handing a room over changes who owns it, not who is in it. */
  lemma HandOverGrantsNothing(db: T.Db, r: Id, actor: Id, target: Id, room: Id, u: Id)
    requires r in db.rooms && (r, target) in db.members
    ensures MayBeThere(T.HandOver(db, r, actor, target), room, u) <==> MayBeThere(db, room, u)
  {
  }

  lemma TransferGrantsNothing(db: T.Db, r: Id, actor: Id, target: Id, now: Time, room: Id, u: Id)
    ensures MayBeThere(T.Transfer(db, r, actor, target, now).db, room, u) <==> MayBeThere(db, room, u)
  {
    var kept := T.KeepDestination(db, r, actor, now);
    assert kept.rooms == db.rooms && kept.members == db.members;
    if T.ActiveMember(kept.members, r, target) && T.RoomActive(kept.rooms, r) {
      HandOverGrantsNothing(kept, r, actor, target, room, u);
    }
  }

  lemma DeletionGrantsNothing(db: T.Db, gone: Id, now: Time, room: Id, u: Id)
    requires !MayBeThere(db, room, u)
    ensures !MayBeThere(T.SoftDelete(db, gone, now), room, u)
  {
    TI.SoftDeletes(db, gone, now);
    DeletionExpels(db, T.SoftDelete(db, gone, now), gone, room, u);
  }

  lemma AccountGrantsNothing(db: T.Db, op: T.AccountOp, room: Id, u: Id)
    requires !MayBeThere(db, room, u)
    ensures !MayBeThere(T.ServeAccount(db, op).db, room, u)
  {
    if op.AdminDeleteOp? {
      DeletionGrantsNothing(db, op.user, op.now, room, u);
    } else if op.HardDeleteOp? {
      ErasureExpels(db, op.user, room, u);
    }
  }

  lemma MembershipGrantsIff(db: T.Db, user: Id, op: T.MembershipOp, room: Id, u: Id)
    requires TI.Inv(db) && !MayBeThere(db, room, u) && T.LoadsUser(db.users, user)
    ensures MayBeThere(T.ServeMembership(db, user, op).db, room, u) <==> Grants(db, T.Membership(user, op), room, u)
  {
    match op
    case CreateOp(draws, name, now) => CreateGrantsIff(db, user, T.Taken(draws), name, now, room, u);
    case JoinOp(code, now) => JoinGrantsIff(db, user, code, now, room, u);
    case DeleteAccountOp(now) => DeletionGrantsNothing(db, user, now, room, u);
    case _ => OthersGrantNothing(db, user, op, room, u);
  }

  /** Whoever may not be there is let in if and only if the request is their own join by the
      room's code or their own creation of the room. */
  lemma ReturnsIff(db: T.Db, req: T.Request, room: Id, user: Id)
    requires TI.Inv(db) && !MayBeThere(db, room, user)
    ensures MayBeThere(T.Handle(db, req).db, room, user) <==> Grants(db, req, room, user)
  {
    match req
    case Membership(u, op) => if T.LoadsUser(db.users, u) { MembershipGrantsIff(db, u, op, room, user); }
    case Route(u, r, op) => if T.LoadsUser(db.users, u) { TI.RouteFrame(db, u, r, op); }
    case Account(op) => AccountGrantsNothing(db, op, room, user);
  }

  // --- runs --------------------------------------------------------------------------------------

  lemma NextStands(w: World, e: Event, room: Id, user: Id)
    requires TI.Inv(w.db)
    ensures MayBeThere(Next(w, e).db, room, user) <==> StandsAfter(w.db, e, room, user, MayBeThere(w.db, room, user))
  {
    if e.Rest? {
      if MayBeThere(w.db, room, user) {
        StaysIff(w.db, e.req, room, user);
      } else {
        ReturnsIff(w.db, e.req, room, user);
      }
    }
  }

  /** Over every run, who may be in a room is exactly who the run's requests leave standing. */
  lemma {:induction false} StandsExactly(w: World, events: seq<Event>, room: Id, user: Id)
    requires Inv(w)
    ensures MayBeThere(Run(w, events).db, room, user) <==> Stands(w, events, room, user, MayBeThere(w.db, room, user))
    decreases |events|
  {
    if events != [] {
      NextStands(w, events[0], room, user);
      NextKeeps(w, events[0]);
      StandsExactly(Next(w, events[0]), events[1..], room, user);
    }
  }


  /** Exactly when an open socket belongs: after every run, the user of an open socket the
      hub holds may be in its room if and only if the run's requests leave them standing
      there; failing that, it belongs only as long as a call that closes it is due. */
  lemma OpenSocketsBelongIff(events: seq<Event>, s: nat)
    requires OpenSock(Run(INIT, events).sys, s)
    ensures var w := Run(INIT, events);
            var room, user := w.sys.socks[s].client.room, w.sys.socks[s].client.user;
            Belongs(w, room, user) <==> Stands(INIT, events, room, user, false) || Due(w.calls, room, user)
  {
    var c := Run(INIT, events).sys.socks[s].client;
    InitInv();
    StandsExactly(INIT, events, c.room, c.user);
  }

  /** A handler that joins opens its socket, whatever has happened since its checks; the
      socket belongs if and only if it would pass the checks of room and membership again,
      or a call that closes it is on its way. */
  lemma LateJoinIff(w: World, h: nat)
    requires At(w, h, UserLoaded)
    ensures var w' := Next(w, Enter(h));
            && OpenSock(w'.sys, |w.sys.socks|)
            && (Belongs(w', w.handlers[h].room, w.handlers[h].user) <==>
                  MayBeThere(w.db, w.handlers[h].room, w.handlers[h].user)
                  || Due(w.calls, w.handlers[h].room, w.handlers[h].user))
  {
    NewcomerIsOpen(w.sys, w.handlers[h].room, w.handlers[h].user);
  }

  /** The join that comes after its checks, exactly: whatever run `since` lies between some
      moment of a run, say the handler's membership check, and its join, the socket it opens
      belongs if and only if the requests of `since` leave its user standing in the room, or
      a call that closes the socket is due. */
  lemma LateJoinExactly(before: seq<Event>, since: seq<Event>, h: nat)
    requires At(Run(Run(INIT, before), since), h, UserLoaded)
    ensures var past, now := Run(INIT, before), Run(Run(INIT, before), since);
            var room, user := now.handlers[h].room, now.handlers[h].user;
            && OpenSock(Next(now, Enter(h)).sys, |now.sys.socks|)
            && (Belongs(Next(now, Enter(h)), room, user) <==>
                  Stands(past, since, room, user, MayBeThere(past.db, room, user)) || Due(now.calls, room, user))
  {
    var past, now := Run(INIT, before), Run(Run(INIT, before), since);
    InitInv();
    RunKeeps(INIT, before);
    StandsExactly(past, since, now.handlers[h].room, now.handlers[h].user);
    LateJoinIff(now, h);
  }
}
