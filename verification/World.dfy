/** The tables and the hub together. Requests commit to the tables and make their hub calls
    afterwards; a websocket handler makes its three checks one by one and joins the hub
    later still; everything else the hub does may come in between. */
module World {
  import opened Types
  import opened Frames
  import T = Tables
  import TI = TableInvariants
  import RT = RoomTheorems
  import H = HubModel
  import I = HubInvariants
  import R = Replica
  import opened OpenSockets

  /** How far a websocket handler has come. */
  datatype Phase = RoomChecked | MemberChecked | UserLoaded | Entered(s: nat) | Refused

  datatype Handler = Handler(room: Id, user: Id, phase: Phase)

  /** `calls` are the hub calls that committed requests have yet to make. */
  datatype World = World(db: T.Db, sys: H.Sys, handlers: seq<Handler>, calls: seq<R.Action>)

  const INIT: World := World(T.EMPTY, H.INIT, [], [])

  datatype Event =
    | Rest(req: T.Request)           // a request commits
    | Call(k: nat)                   // one of the calls owed is made
    | Arrive(room: Id, user: Id)     // a handler finds the room, not ended
    | CheckMember(h: nat)
    | LoadUser(h: nat)
    | Enter(h: nat)                  // it joins the hub
    | Hub(step: H.Step)              // any other step of the hub

  /** The hub calls of a request that went through. */
  ghost function HubCalls(db: T.Db, req: T.Request): seq<R.Action> {
    if T.Handle(db, req).reply != T.Ok then []
    else
      match req
      case Membership(user, op) =>
        (match op
         case JoinOp(code, _) =>
           (match T.RoomByCode(db, code) case Some(room) => [R.Notify(room, MemberJoined(user), None)] case None => [])
         case LeaveOp(room, _) => [R.LeaveRoom(room, user)]
         case KickOp(room, target, _) => [R.KickUser(room, target, user)]
         case EndOp(room, _) => [R.EndRoom(room)]
         case TransferOp(room, _, _) => [R.Notify(room, Info("owner_changed"), None)]
         case _ => [])
      case Route(user, room, op) =>
        (match op
         case RenameOp(_) => [R.Notify(room, Info("room_renamed"), None)]
         case SetDestOp(_, _, _, _, _) => [R.Notify(room, Info("destination"), None)]
         case EditDestOp(_, _) => [R.Notify(room, Info("destination"), None)]
         case ClearDestOp => [R.Notify(room, Info("destination"), None), R.Notify(room, Info("stops"), None)]
         case PostOp(_, _, _) => [R.Notify(room, Info("chat"), Some(user))]
         case SetMarkerOp(_, _, _, _) => []
         case ClearMarkerOp => []
         case _ => [R.Notify(room, Info("stops"), None)])
      case Account(_) => []
  }

  predicate At(w: World, h: nat, phase: Phase) {
    h < |w.handlers| && w.handlers[h].phase == phase
  }

  function Move(w: World, h: nat, phase: Phase): World
    requires h < |w.handlers|
  {
    w.(handlers := w.handlers[h := w.handlers[h].(phase := phase)])
  }

  function Without(calls: seq<R.Action>, k: nat): seq<R.Action>
    requires k < |calls|
  {
    calls[..k] + calls[k + 1..]
  }

  ghost function Next(w: World, e: Event): World {
    match e
    case Rest(req) => w.(db := T.Handle(w.db, req).db, calls := w.calls + HubCalls(w.db, req))
    case Call(k) =>
      if k < |w.calls| then w.(sys := R.Perform(w.sys, w.calls[k]), calls := Without(w.calls, k)) else w
    case Arrive(room, user) =>
      if T.RoomActive(w.db.rooms, room) then w.(handlers := w.handlers + [Handler(room, user, RoomChecked)]) else w
    case CheckMember(h) =>
      if At(w, h, RoomChecked) then
        var member := T.ActiveMember(w.db.members, w.handlers[h].room, w.handlers[h].user);
        Move(w, h, if member then MemberChecked else Refused)
      else w
    case LoadUser(h) =>
      if At(w, h, MemberChecked) then
        Move(w, h, if T.LoadsUser(w.db.users, w.handlers[h].user) then UserLoaded else Refused)
      else w
    case Enter(h) =>
      if At(w, h, UserLoaded) then
        Move(w, h, Entered(|w.sys.socks|)).(sys := H.Join(w.sys, w.handlers[h].room, w.handlers[h].user))
      else w
    case Hub(step) => if step.DoJoin? then w else w.(sys := H.Apply(w.sys, step))
  }

  ghost function Run(w: World, events: seq<Event>): World
    decreases |events|
  {
    if events == [] then w else Run(Next(w, events[0]), events[1..])
  }

  predicate MayBeThere(db: T.Db, room: Id, user: Id) {
    T.RoomActive(db.rooms, room) && T.ActiveMember(db.members, room, user)
  }

  // --- the tables ------------------------------------------------------------------------------

  /** The request puts the user out of the room: a leave, a kick or the end. */
  ghost predicate Removes(db: T.Db, req: T.Request, room: Id, user: Id) {
    && T.Handle(db, req).reply == T.Ok
    && req.Membership?
    && match req.op
       case LeaveOp(r, _) => r == room && req.user == user
       case KickOp(r, target, _) => r == room && target == user
       case EndOp(r, _) => r == room
       case _ => false
  }

  /** The account the event deletes, softly or for good. */
  function Deletes(e: Event): Option<Id> {
    match e
    case Rest(Membership(user, DeleteAccountOp(_))) => Some(user)
    case Rest(Account(AdminDeleteOp(user, _))) => Some(user)
    case Rest(Account(HardDeleteOp(user))) => Some(user)
    case _ => None
  }

  /** The deletion takes effect: the session is live, or nothing that does not cascade
      refers to the user. */
  ghost predicate TakesEffect(db: T.Db, e: Event)
    requires Deletes(e).Some?
  {
    match e
    case Rest(Membership(user, _)) => T.LoadsUser(db.users, user)
    case Rest(Account(HardDeleteOp(user))) => !T.StillReferenced(db, user)
    case _ => true
  }

  /** The event deletes the account of the user or of the room's owner. */
  ghost predicate Blamed(db: T.Db, e: Event, room: Id, user: Id) {
    && Deletes(e).Some? && TakesEffect(db, e)
    && (user == Deletes(e).value || (room in db.rooms && db.rooms[room].owner == Deletes(e).value))
  }

  lemma {:induction false} CreateKeepsMembers(db: T.Db, owner: Id, draws: seq<T.Draw>, name: Option<string>,
                                              now: Time, k: (Id, Id))
    requires k in db.members
    ensures var db' := T.Create(db, owner, draws, name, now).db; k in db'.members && db'.members[k] == db.members[k]
    decreases |draws|
  {
    if draws != [] && draws[0].code.Some? && T.Collides(db, owner, draws[0].id, draws[0].code.value) {
      CreateKeepsMembers(db, owner, draws[1..], name, now, k);
    }
  }

  lemma MemberStays(db: T.Db, user: Id, op: T.MembershipOp, room: Id, u: Id)
    requires T.LoadsUser(db.users, user) && !op.DeleteAccountOp? && !Removes(db, T.Membership(user, op), room, u)
    requires T.ActiveMember(db.members, room, u)
    ensures T.ActiveMember(T.ServeMembership(db, user, op).db.members, room, u)
  {
    if op.CreateOp? {
      CreateKeepsMembers(db, user, T.Taken(op.draws), op.name, op.now, (room, u));
    }
  }

  /** The event ends the room, by itself or with the owner's account. */
  ghost predicate Closes(db: T.Db, e: Event, room: Id) {
    && e.Rest?
    && (|| (Deletes(e).Some? && TakesEffect(db, e) && room in db.rooms && db.rooms[room].owner == Deletes(e).value)
        || (e.req.Membership? && e.req.op.EndOp? && e.req.op.room == room && T.Handle(db, e.req).reply == T.Ok))
  }

  lemma MembershipKeepsRoom(db: T.Db, user: Id, op: T.MembershipOp, room: Id)
    requires T.LoadsUser(db.users, user) && !op.DeleteAccountOp? && !Closes(db, Rest(T.Membership(user, op)), room)
    requires T.RoomActive(db.rooms, room)
    ensures T.RoomActive(T.ServeMembership(db, user, op).db.rooms, room)
  {
    if op.CreateOp? {
      RT.CreateKeepsRooms(db, user, T.Taken(op.draws), op.name, op.now, room);
    }
  }

  /** Somebody may be in the room after a deletion exactly if they might before and neither
      they nor the room's owner is the deleted user. */
  lemma DeletionExpels(db: T.Db, db': T.Db, user: Id, room: Id, u: Id)
    requires TI.SoftDeleted(db, db', user)
    ensures T.RoomActive(db'.rooms, room) <==> T.RoomActive(db.rooms, room) && db.rooms[room].owner != user
    ensures T.ActiveMember(db'.members, room, u) <==> T.ActiveMember(db.members, room, u) && u != user
  {
    if room in db.rooms {
      assert TI.RoomEnded(db.rooms[room], db'.rooms[room], user);
    }
    if (room, u) in db.members {
      assert TI.MemberKicked(db.members[(room, u)], db'.members[(room, u)], u == user);
    }
  }

  lemma ErasureExpels(db: T.Db, user: Id, room: Id, u: Id)
    ensures var db' := T.Cascade(db, user);
            && (T.RoomActive(db'.rooms, room) <==> T.RoomActive(db.rooms, room) && db.rooms[room].owner != user)
            && (T.ActiveMember(db'.members, room, u) <==>
                  && T.ActiveMember(db.members, room, u) && u != user
                  && room in db.rooms && db.rooms[room].owner != user)
  {
  }

  /** A request that does not close the room leaves it open. */
  lemma RoomStays(db: T.Db, req: T.Request, room: Id)
    requires T.RoomActive(db.rooms, room) && !Closes(db, Rest(req), room)
    ensures T.RoomActive(T.Handle(db, req).db.rooms, room)
  {
    match req
    case Membership(user, op) =>
      if T.LoadsUser(db.users, user) {
        if op.DeleteAccountOp? {
          TI.SoftDeletes(db, user, op.now);
          DeletionExpels(db, T.SoftDelete(db, user, op.now), user, room, user);
        } else {
          MembershipKeepsRoom(db, user, op, room);
        }
      }
    case Route(user, r, op) => if T.LoadsUser(db.users, user) { TI.RouteFrame(db, user, r, op); }
    case Account(op) => AccountKeepsRoom(db, op, room);
  }

  lemma AccountKeepsRoom(db: T.Db, op: T.AccountOp, room: Id)
    requires T.RoomActive(db.rooms, room) && !Closes(db, Rest(T.Account(op)), room)
    ensures T.RoomActive(T.ServeAccount(db, op).db.rooms, room)
  {
    if op.AdminDeleteOp? {
      TI.SoftDeletes(db, op.user, op.now);
      DeletionExpels(db, T.SoftDelete(db, op.user, op.now), op.user, room, op.user);
    } else if op.HardDeleteOp? {
      ErasureExpels(db, op.user, room, op.user);
    }
  }

  /** One that does not put the user out of the room either leaves them inside. */
  lemma RequestStays(db: T.Db, req: T.Request, room: Id, u: Id)
    requires MayBeThere(db, room, u) && !Blamed(db, Rest(req), room, u) && !Removes(db, req, room, u)
    ensures MayBeThere(T.Handle(db, req).db, room, u)
  {
    RoomStays(db, req, room);
    match req
    case Membership(user, op) =>
      if T.LoadsUser(db.users, user) {
        if op.DeleteAccountOp? {
          TI.SoftDeletes(db, user, op.now);
          DeletionExpels(db, T.SoftDelete(db, user, op.now), user, room, u);
        } else {
          MemberStays(db, user, op, room, u);
        }
      }
    case Route(user, r, op) => if T.LoadsUser(db.users, user) { TI.RouteFrame(db, user, r, op); }
    case Account(op) =>
      if op.AdminDeleteOp? {
        TI.SoftDeletes(db, op.user, op.now);
        DeletionExpels(db, T.SoftDelete(db, op.user, op.now), op.user, room, u);
      } else if op.HardDeleteOp? {
        ErasureExpels(db, op.user, room, u);
      }
  }

  /** One that does makes the hub call that ends the connection. */
  lemma RemovalCalls(db: T.Db, req: T.Request, room: Id, user: Id)
    requires Removes(db, req, room, user)
    ensures |HubCalls(db, req)| == 1 && Ends(HubCalls(db, req)[0], room, user)
  {
  }

  lemma OnlyCalls(db: T.Db, req: T.Request)
    ensures forall i :: 0 <= i < |HubCalls(db, req)| ==> IsCall(HubCalls(db, req)[i])
  {
  }

  // --- invariants ----------------------------------------------------------------------------

  ghost predicate Inv(w: World) {
    I.Inv(w.sys) && TI.Inv(w.db) && forall k :: 0 <= k < |w.calls| ==> IsCall(w.calls[k])
  }

  /** The handler's socket is one of its user in its room. */
  ghost predicate HandlerFits(w: World, h: nat)
    requires h < |w.handlers|
  {
    w.handlers[h].phase.Entered? ==> IsSock(w.sys, w.handlers[h].phase.s, w.handlers[h].room, w.handlers[h].user)
  }

  /** Every socket came from a handler. */
  ghost predicate Linked(w: World) {
    && (forall h :: 0 <= h < |w.handlers| ==> HandlerFits(w, h))
    && (forall s :: 0 <= s < |w.sys.socks| ==> HasHandler(w, s))
  }

  ghost predicate HasHandler(w: World, s: nat) {
    exists h :: 0 <= h < |w.handlers| && At(w, h, Entered(s))
  }

  lemma NextKeeps(w: World, e: Event)
    requires Inv(w)
    ensures Inv(Next(w, e))
  {
    match e
    case Rest(req) =>
      TI.HandleKeeps(w.db, req);
      OnlyCalls(w.db, req);
    case Call(k) => if k < |w.calls| { R.ActionKeeps(w.sys, w.calls[k]); }
    case Enter(h) => if At(w, h, UserLoaded) { I.JoinKeeps(w.sys, w.handlers[h].room, w.handlers[h].user); }
    case Hub(step) => I.StepKeeps(w.sys, step);
    case _ =>
  }

  /** Handlers stay, and one that has joined stays joined. */
  lemma HandlersStay(w: World, e: Event, h: nat)
    requires h < |w.handlers|
    ensures h < |Next(w, e).handlers|
    ensures Next(w, e).handlers[h].room == w.handlers[h].room && Next(w, e).handlers[h].user == w.handlers[h].user
    ensures w.handlers[h].phase.Entered? ==> Next(w, e).handlers[h] == w.handlers[h]
  {
  }

  lemma QuietSocks(w: World, e: Event)
    requires Inv(w) && !e.Enter?
    ensures SameSocks(w.sys, Next(w, e).sys)
  {
    match e
    case Call(k) => if k < |w.calls| { ActionSameSocks(w.sys, w.calls[k]); }
    case Hub(step) => if !step.DoJoin? { StepSameSocks(w.sys, step); }
    case _ =>
  }

  lemma EnterFits(w: World, j: nat, h: nat)
    requires h < |w.handlers| && HandlerFits(w, h)
    ensures HandlerFits(Next(w, Enter(j)), h)
  {
    if At(w, j, UserLoaded) {
      NewcomerIsOpen(w.sys, w.handlers[j].room, w.handlers[j].user);
      JoinKeepsSock(w.sys, w.handlers[j].room, w.handlers[j].user);
    }
  }

  lemma NextFits(w: World, e: Event, h: nat)
    requires Inv(w) && Linked(w) && h < |Next(w, e).handlers|
    ensures HandlerFits(Next(w, e), h)
  {
    if e.Enter? {
      EnterFits(w, e.h, h);
    } else {
      QuietSocks(w, e);
      if h < |w.handlers| {
        assert HandlerFits(w, h);
      }
    }
  }

  lemma NextHasHandler(w: World, e: Event, s: nat)
    requires Inv(w) && Linked(w) && s < |Next(w, e).sys.socks|
    ensures HasHandler(Next(w, e), s)
  {
    if s < |w.sys.socks| {
      assert HasHandler(w, s);
      var h :| 0 <= h < |w.handlers| && At(w, h, Entered(s));
      HandlersStay(w, e, h);
      assert At(Next(w, e), h, Entered(s));
    } else {
      if !e.Enter? {
        QuietSocks(w, e);
      }
      assert e.Enter? && At(Next(w, e), e.h, Entered(s));
    }
  }

  lemma NextLinked(w: World, e: Event)
    requires Inv(w) && Linked(w)
    ensures Linked(Next(w, e))
  {
    var next := Next(w, e);
    forall h | 0 <= h < |next.handlers| ensures HandlerFits(next, h) {
      NextFits(w, e, h);
    }
    forall s | 0 <= s < |next.sys.socks| ensures HasHandler(next, s) {
      NextHasHandler(w, e, s);
    }
  }

  lemma {:induction false} RunKeeps(w: World, events: seq<Event>)
    requires Inv(w) && Linked(w)
    ensures Inv(Run(w, events)) && Linked(Run(w, events))
    decreases |events|
  {
    if events != [] {
      NextKeeps(w, events[0]);
      NextLinked(w, events[0]);
      RunKeeps(Next(w, events[0]), events[1..]);
    }
  }

  lemma InitInv()
    ensures Inv(INIT) && Linked(INIT)
  {
    I.InitInv();
    RT.EmptyInv();
  }
}
