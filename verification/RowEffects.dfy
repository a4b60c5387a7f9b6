/** What requests do to single columns, and what they answer: edits with their exact
    replies, names, messages, timestamps, sign-in, and what a hard delete leaves. */
module RowEffects {
  import opened Types
  import opened Tables
  import TI = TableInvariants
  import RT = RoomTheorems
  import P = Places
  import G = Pagination
  import W = World
  import S = Stops

  // --- the replies of edits ------------------------------------------------------------------------

  predicate Inside(db: Db, room: Id, user: Id) {
    && (room, user) in db.members
    && db.members[(room, user)].leftAt == None && !db.members[(room, user)].kicked
  }

  predicate Runs(db: Db, room: Id, user: Id) {
    Inside(db, room, user) && db.members[(room, user)].role == Owner
  }

  /** Messages and private markers are for members, everything else is for the owner. */
  predicate Allowed(db: Db, room: Id, user: Id, op: RouteOp) {
    if op.PostOp? || op.SetMarkerOp? || op.ClearMarkerOp? then Inside(db, room, user) else Runs(db, room, user)
  }

  predicate Malformed(op: RouteOp) {
    match op
    case RenameOp(name) => |name| < 1 || |name| > 40
    case PostOp(_, body, _) => |body| < 1 || |body| > 2000
    case SetDestOp(lat, lng, _, _, _) => !P.OnMap(lat, lng)
    case SetMarkerOp(lat, lng, _, _) => !P.OnMap(lat, lng)
    case AddStopOp(_, lat, lng, _, _) => !P.OnMap(lat, lng)
    case _ => false
  }

  /** There is nothing for the edit to apply to: the room has ended, no destination is set,
      or the stop is not one of the room's. */
  predicate Missing(db: Db, room: Id, op: RouteOp) {
    var open := room in db.rooms && db.rooms[room].endedAt == None;
    match op
    case RenameOp(_) => !open
    case SetDestOp(_, _, _, _, _) => !open
    case ClearDestOp => !open
    case EditDestOp(_, _) => !open || db.rooms[room].destLat == None || db.rooms[room].destLng == None
    case LabelStopOp(id, _) => id !in db.stops || db.stops[id].room != room
    case RemoveStopOp(id) => id !in db.stops || db.stops[id].room != room
    case _ => false
  }

  /** The insert is refused: the id is taken, or the room has no position left. */
  ghost predicate Clashes(db: Db, room: Id, op: RouteOp) {
    match op
    case PostOp(id, _, _) => id in db.messages
    case AddStopOp(id, _, _, _, _) => id in db.stops || !S.HasPosition(db.stops, room)
    case _ => false
  }

  ghost function ReplyTo(db: Db, user: Id, room: Id, op: RouteOp): Reply {
    if user !in db.users || db.users[user].deletedAt != None then Unauthorized
    else if !Allowed(db, room, user, op) then Forbidden
    else if Malformed(op) then BadRequest
    else if Missing(db, room, op) then NotFound
    else if Clashes(db, room, op) then Failed
    else Ok
  }

  /** An edit is answered by what it lacks first: a session, permission, a proper form,
      something to apply to, a free id. */
  lemma EditReplies(db: Db, user: Id, room: Id, op: RouteOp)
    ensures Handle(db, Route(user, room, op)).reply == ReplyTo(db, user, room, op)
  {
    if op.AddStopOp? {
      S.CanAddIff(db.stops, room, op.id);
    }
  }

  /** An addition that is answered with `Ok` appends the stop to the room's list. */
  lemma AddStopAppends(db: Db, user: Id, room: Id, op: RouteOp, l: seq<S.Stop>)
    requires op.AddStopOp? && ReplyTo(db, user, room, op) == Ok && S.IsRoute(db.stops, room, l)
    ensures S.IsRoute(Handle(db, Route(user, room, op)).db.stops, room,
                      l + [S.Stop(op.id, op.lat, op.lng, op.title, user, op.now)])
  {
    EditReplies(db, user, room, op);
    S.CanAddIff(db.stops, room, op.id);
    S.AddRefines(db.stops, S.Add(room, op.id, op.lat, op.lng, op.title, user, op.now), l);
  }

  // --- names ------------------------------------------------------------------------------------

  /** A room's name is the last one set: a rename that is answered with `Ok` sets it, and
      nothing else changes it. */
  lemma StepName(db: Db, req: Request, room: Id)
    requires room in db.rooms && room in Handle(db, req).db.rooms
    ensures Handle(db, req).db.rooms[room].name ==
            if req.Route? && req.room == room && req.edit.RenameOp? && ReplyTo(db, req.user, room, req.edit) == Ok
            then Some(req.edit.roomName) else db.rooms[room].name
  {
    match req
    case Membership(user, op) => if LoadsUser(db.users, user) { MembershipKeepsName(db, user, op, room); }
    case Route(user, r, op) => EditSetsName(db, user, r, op, room);
    case Account(op) => AccountKeepsName(db, op, room);
  }

  lemma MembershipKeepsName(db: Db, user: Id, op: MembershipOp, room: Id)
    requires room in db.rooms
    ensures var db' := ServeMembership(db, user, op).db;
            room in db'.rooms && db'.rooms[room].name == db.rooms[room].name
  {
    match op
    case CreateOp(draws, name, now) => RT.CreateKeepsRooms(db, user, Taken(draws), name, now, room);
    case TransferOp(r, target, now) => TransferKeepsName(db, r, user, target, now, room);
    case DeleteAccountOp(now) => DeletionKeepsName(db, user, now, room);
    case _ =>
  }

  lemma TransferKeepsName(db: Db, r: Id, actor: Id, target: Id, now: Time, room: Id)
    requires room in db.rooms
    ensures var db' := Transfer(db, r, actor, target, now).db;
            room in db'.rooms && db'.rooms[room].name == db.rooms[room].name
  {
    assert KeepDestination(db, r, actor, now).rooms == db.rooms;
  }

  lemma DeletionKeepsName(db: Db, gone: Id, now: Time, room: Id)
    requires room in db.rooms
    ensures var db' := SoftDelete(db, gone, now); room in db'.rooms && db'.rooms[room].name == db.rooms[room].name
  {
  }

  lemma EditSetsName(db: Db, user: Id, r: Id, op: RouteOp, room: Id)
    requires room in db.rooms
    ensures var db' := Handle(db, Route(user, r, op)).db;
            && room in db'.rooms
            && db'.rooms[room].name ==
               if r == room && op.RenameOp? && ReplyTo(db, user, room, op) == Ok then Some(op.roomName)
               else db.rooms[room].name
  {
    EditReplies(db, user, r, op);
  }

  lemma AccountKeepsName(db: Db, op: AccountOp, room: Id)
    requires room in db.rooms && room in ServeAccount(db, op).db.rooms
    ensures ServeAccount(db, op).db.rooms[room].name == db.rooms[room].name
  {
    if op.AdminDeleteOp? {
      DeletionKeepsName(db, op.user, op.now, room);
    } else if op.HardDeleteOp? {
      ErasedUnchanged(db, op.user);
    }
  }

  /** A room that is created has the name, code, owner and time of its creation, and no
      destination; its owner is inside it since then. */
  lemma CreatedRow(db: Db, owner: Id, draws: seq<Draw>, name: Option<string>, now: Time, i: nat)
    requires owner in db.users && RT.FirstFree(db, owner, draws, i) && i < 8
    ensures var o := ServeMembership(db, owner, CreateOp(draws, name, now));
            var id := draws[i].id;
            && o.reply == Ok && id !in db.rooms && id in o.db.rooms
            && var row := o.db.rooms[id];
            && row.code == draws[i].code.value && row.name == name && row.owner == owner && row.createdAt == now
            && row.endedAt == None && P.DestOf(o.db.rooms, id) == None
            && (id, owner) in o.db.members && o.db.members[(id, owner)] == MemberRow(Owner, false, now, None)
  {
    assert RT.FirstFree(db, owner, Taken(draws), i);
    RT.CreateAllOrNothing(db, owner, Taken(draws), name, now, i);
  }

  /** Create gives up after eight attempts: it succeeds if and only if one of the first eight
      draws is free and all before it are taken. */
  lemma EightAttempts(db: Db, owner: Id, draws: seq<Draw>, name: Option<string>, now: Time)
    requires owner in db.users
    ensures ServeMembership(db, owner, CreateOp(draws, name, now)).reply == Ok <==>
            exists i: nat :: i < 8 && RT.FirstFree(db, owner, draws, i)
  {
    var out := ServeMembership(db, owner, CreateOp(draws, name, now));
    RT.CreateAllOrNothing(db, owner, Taken(draws), name, now, 0);
    if out.reply == Ok {
      var k: nat :| RT.FirstFree(db, owner, Taken(draws), k);
      assert k < 8 && RT.FirstFree(db, owner, draws, k);
    }
    if i: nat :| i < 8 && RT.FirstFree(db, owner, draws, i) {
      CreatedRow(db, owner, draws, name, now, i);
    }
  }

  // --- messages --------------------------------------------------------------------------------------

  function MessageOf(messages: map<Id, MessageRow>, id: Id): Option<MessageRow> {
    if id in messages then Some(messages[id]) else None
  }

  /** The hard delete takes the message: its author or its room's owner is erased. */
  ghost predicate TakesMessage(db: Db, req: Request, id: Id) {
    && req.Account? && req.act.HardDeleteOp? && req.act.user in db.users && Handle(db, req).reply == Ok
    && id in db.messages
    && (|| db.messages[id].user == req.act.user
        || db.messages[id].room !in db.rooms || db.rooms[db.messages[id].room].owner == req.act.user)
  }

  /** A message is there as it was posted until a hard delete takes it. */
  lemma StepMessage(db: Db, req: Request, id: Id)
    ensures MessageOf(Handle(db, req).db.messages, id) ==
            if req.Route? && req.edit.PostOp? && req.edit.id == id && ReplyTo(db, req.user, req.room, req.edit) == Ok
            then Some(MessageRow(req.room, req.user, req.edit.body, req.edit.now))
            else if TakesMessage(db, req, id) then None
            else MessageOf(db.messages, id)
  {
    match req
    case Membership(user, op) => if LoadsUser(db.users, user) { G.MembershipLeavesMessages(db, user, op); }
    case Route(user, room, op) => EditPosts(db, user, room, op, id);
    case Account(op) => AccountTakes(db, op, id);
  }

  lemma EditPosts(db: Db, user: Id, room: Id, op: RouteOp, id: Id)
    ensures MessageOf(Handle(db, Route(user, room, op)).db.messages, id) ==
            if op.PostOp? && op.id == id && ReplyTo(db, user, room, op) == Ok
            then Some(MessageRow(room, user, op.body, op.now)) else MessageOf(db.messages, id)
  {
    EditReplies(db, user, room, op);
  }

  lemma AccountTakes(db: Db, op: AccountOp, id: Id)
    ensures MessageOf(ServeAccount(db, op).db.messages, id) ==
            if TakesMessage(db, Account(op), id) then None else MessageOf(db.messages, id)
  {
  }

  // --- timestamps --------------------------------------------------------------------------------------

  /** The time of a request. */
  function NowOf(req: Request): Option<Time> {
    match req
    case Membership(_, op) => Some(op.now)
    case Account(AdminDeleteOp(_, now)) => Some(now)
    case _ => None
  }

  /** A timestamp column changes only to the time of the request that sets it, and never from
      one time to another. */
  predicate Stamped(was: Option<Time>, next: Option<Time>, now: Option<Time>) {
    next == was || (was == None && next == now)
  }

  predicate MemberStamped(was: MemberRow, next: MemberRow, now: Option<Time>) {
    next.joinedAt == was.joinedAt && Stamped(was.leftAt, next.leftAt, now)
  }

  lemma SoftDeleteStampsMember(db: Db, gone: Id, now: Time, k: (Id, Id))
    requires k in db.members
    ensures var db' := SoftDelete(db, gone, now);
            k in db'.members && MemberStamped(db.members[k], db'.members[k], Some(now))
  {
  }

  lemma TransferStampsMember(db: Db, room: Id, actor: Id, target: Id, now: Time, k: (Id, Id))
    requires k in db.members
    ensures var db' := Transfer(db, room, actor, target, now).db;
            k in db'.members && MemberStamped(db.members[k], db'.members[k], None)
  {
    assert KeepDestination(db, room, actor, now).members == db.members;
  }

  /** A member row keeps the time of the first join for good; a leave, a kick or a deletion
      stamps it with its own time, and only a return clears that. */
  lemma MemberStamps(db: Db, req: Request, k: (Id, Id))
    requires k in db.members && k in Handle(db, req).db.members
    ensures var was, next := db.members[k], Handle(db, req).db.members[k];
            || MemberStamped(was, next, NowOf(req))
            || (&& next.joinedAt == was.joinedAt && next.leftAt == None
                && req.Membership? && req.op.JoinOp? && req.user == k.1)
  {
    match req
    case Membership(user, op) => if LoadsUser(db.users, user) { MembershipStamps(db, user, op, k); }
    case Route(user, room, op) => if LoadsUser(db.users, user) { TI.RouteFrame(db, user, room, op); }
    case Account(op) => AccountStampsMember(db, op, k);
  }

  lemma AccountStampsMember(db: Db, op: AccountOp, k: (Id, Id))
    requires k in db.members && k in ServeAccount(db, op).db.members
    ensures MemberStamped(db.members[k], ServeAccount(db, op).db.members[k], NowOf(Account(op)))
  {
    if op.AdminDeleteOp? {
      SoftDeleteStampsMember(db, op.user, op.now, k);
    } else if op.HardDeleteOp? {
      ErasedUnchanged(db, op.user);
    }
  }

  lemma MembershipStamps(db: Db, user: Id, op: MembershipOp, k: (Id, Id))
    requires k in db.members
    ensures var db' := ServeMembership(db, user, op).db;
            && k in db'.members
            && (|| MemberStamped(db.members[k], db'.members[k], Some(op.now))
                || (&& db'.members[k].joinedAt == db.members[k].joinedAt && db'.members[k].leftAt == None
                    && op.JoinOp? && user == k.1))
  {
    match op
    case CreateOp(draws, name, now) => W.CreateKeepsMembers(db, user, Taken(draws), name, now, k);
    case TransferOp(room, target, now) => TransferStampsMember(db, room, user, target, now, k);
    case DeleteAccountOp(now) => SoftDeleteStampsMember(db, user, now, k);
    case _ =>
  }

  /** The kicked column: a kick and a deletion of the account set it on a row that has not
      left, the user's own join clears it, and nothing else changes it. */
  ghost predicate KickedAfter(db: Db, req: Request, k: (Id, Id))
    requires k in db.members
  {
    var here := db.members[k].leftAt == None;
    match req
    case Membership(user, KickOp(room, target, _)) =>
      (k == (room, target) && Handle(db, req).reply == Ok) || db.members[k].kicked
    case Membership(user, DeleteAccountOp(_)) =>
      (k.1 == user && here && LoadsUser(db.users, user)) || db.members[k].kicked
    case Account(AdminDeleteOp(user, _)) => (k.1 == user && here) || db.members[k].kicked
    case Membership(user, JoinOp(code, _)) =>
      db.members[k].kicked && !(k.1 == user && LoadsUser(db.users, user) && HoldsCode(db.rooms, k.0, code))
    case _ => db.members[k].kicked
  }

  lemma StepKicked(db: Db, req: Request, k: (Id, Id))
    requires TI.Inv(db) && k in db.members && k in Handle(db, req).db.members
    ensures Handle(db, req).db.members[k].kicked <==> KickedAfter(db, req, k)
  {
    match req
    case Membership(user, op) => if LoadsUser(db.users, user) { MembershipKicks(db, user, op, k); }
    case Route(user, room, op) => if LoadsUser(db.users, user) { TI.RouteFrame(db, user, room, op); }
    case Account(op) => AccountKicks(db, op, k);
  }

  lemma DeletionKicks(db: Db, gone: Id, now: Time, k: (Id, Id))
    requires k in db.members
    ensures var db' := SoftDelete(db, gone, now);
            && k in db'.members
            && (db'.members[k].kicked <==> (k.1 == gone && db.members[k].leftAt == None) || db.members[k].kicked)
  {
  }

  lemma TransferKicksNobody(db: Db, room: Id, actor: Id, target: Id, now: Time, k: (Id, Id))
    requires k in db.members
    ensures var db' := Transfer(db, room, actor, target, now).db;
            k in db'.members && db'.members[k].kicked == db.members[k].kicked
  {
    assert KeepDestination(db, room, actor, now).members == db.members;
  }

  lemma JoinClears(db: Db, user: Id, code: string, now: Time, k: (Id, Id))
    requires TI.Inv(db) && k in db.members
    ensures var db' := Join(db, user, code, now).db;
            && k in db'.members
            && (db'.members[k].kicked <==> db.members[k].kicked && !(k.1 == user && HoldsCode(db.rooms, k.0, code)))
  {
    RT.CodeNamesOneRoom(db, code, k.0);
  }

  lemma KickMarks(db: Db, room: Id, actor: Id, target: Id, now: Time, k: (Id, Id))
    requires k in db.members
    ensures var o := Kick(db, room, actor, target, now);
            && k in o.db.members
            && (o.db.members[k].kicked <==> (k == (room, target) && o.reply == Ok) || db.members[k].kicked)
  {
  }

  /** Leaving and ending kick nobody. */
  lemma QuietOps(db: Db, user: Id, op: MembershipOp, k: (Id, Id))
    requires k in db.members && (op.LeaveOp? || op.EndOp?)
    ensures var db' := ServeMembership(db, user, op).db;
            k in db'.members && db'.members[k].kicked == db.members[k].kicked
  {
  }

  lemma MembershipKicks(db: Db, user: Id, op: MembershipOp, k: (Id, Id))
    requires TI.Inv(db) && k in db.members && LoadsUser(db.users, user)
    ensures var db' := ServeMembership(db, user, op).db;
            k in db'.members && (db'.members[k].kicked <==> KickedAfter(db, Membership(user, op), k))
  {
    match op
    case CreateOp(draws, name, now) => W.CreateKeepsMembers(db, user, Taken(draws), name, now, k);
    case JoinOp(code, now) => JoinClears(db, user, code, now, k);
    case KickOp(room, target, now) => KickMarks(db, room, user, target, now, k);
    case TransferOp(room, target, now) => TransferKicksNobody(db, room, user, target, now, k);
    case DeleteAccountOp(now) => DeletionKicks(db, user, now, k);
    case _ => QuietOps(db, user, op, k);
  }

  lemma AccountKicks(db: Db, op: AccountOp, k: (Id, Id))
    requires k in db.members && k in ServeAccount(db, op).db.members
    ensures ServeAccount(db, op).db.members[k].kicked <==> KickedAfter(db, Account(op), k)
  {
    if op.AdminDeleteOp? {
      DeletionKicks(db, op.user, op.now, k);
    } else if op.HardDeleteOp? {
      ErasedUnchanged(db, op.user);
    }
  }

  /** A new member row is the user's own, from their join or creation at this time. */
  lemma NewMemberRow(db: Db, req: Request, k: (Id, Id))
    requires k !in db.members && k in Handle(db, req).db.members
    ensures && req.Membership? && req.user == k.1 && (req.op.JoinOp? || req.op.CreateOp?)
            && Handle(db, req).db.members[k] ==
               MemberRow(if req.op.CreateOp? then Owner else Member, false, req.op.now, None)
  {
    match req
    case Membership(user, op) =>
      if LoadsUser(db.users, user) {
        if op.CreateOp? {
          CreateAddsMember(db, user, Taken(op.draws), op.name, op.now, k);
        } else if !op.JoinOp? {
          OthersAddNobody(db, user, op);
        }
      }
    case Route(user, room, op) => if LoadsUser(db.users, user) { TI.RouteFrame(db, user, room, op); }
    case Account(op) => AccountAddsNobody(db, op);
  }

  lemma {:induction false} CreateAddsMember(db: Db, owner: Id, draws: seq<Draw>, name: Option<string>, now: Time,
                                            k: (Id, Id))
    requires k !in db.members && k in Create(db, owner, draws, name, now).db.members
    ensures k.1 == owner && Create(db, owner, draws, name, now).db.members[k] == MemberRow(Owner, false, now, None)
    decreases |draws|
  {
    if draws != [] && draws[0].code.Some? && Collides(db, owner, draws[0].id, draws[0].code.value) {
      CreateAddsMember(db, owner, draws[1..], name, now, k);
    }
  }

  lemma OthersAddNobody(db: Db, user: Id, op: MembershipOp)
    requires !op.CreateOp? && !op.JoinOp?
    ensures ServeMembership(db, user, op).db.members.Keys == db.members.Keys
  {
    if op.TransferOp? {
      assert KeepDestination(db, op.room, user, op.now).members == db.members;
    }
  }

  lemma AccountAddsNobody(db: Db, op: AccountOp)
    ensures ServeAccount(db, op).db.members.Keys <= db.members.Keys
  {
    if op.HardDeleteOp? {
      ErasedUnchanged(db, op.user);
    }
  }

  /** Rows stay where they are without a hard delete, so the order in which members are
      listed never changes. */
  lemma {:induction false} JoinOrderIsFixed(db: Db, reqs: seq<Request>, k: (Id, Id))
    requires k in db.members
    requires forall i :: 0 <= i < |reqs| ==> !(reqs[i].Account? && reqs[i].act.HardDeleteOp?)
    ensures k in HandleAll(db, reqs).members && HandleAll(db, reqs).members[k].joinedAt == db.members[k].joinedAt
    decreases |reqs|
  {
    if reqs != [] {
      MemberRowsStay(db, reqs[0], k);
      MemberStamps(db, reqs[0], k);
      JoinOrderIsFixed(Handle(db, reqs[0]).db, reqs[1..], k);
    }
  }

  lemma MemberRowsStay(db: Db, req: Request, k: (Id, Id))
    requires k in db.members && !(req.Account? && req.act.HardDeleteOp?)
    ensures k in Handle(db, req).db.members
  {
    match req
    case Membership(user, op) => if LoadsUser(db.users, user) { MembershipStamps(db, user, op, k); }
    case Route(user, room, op) => if LoadsUser(db.users, user) { TI.RouteFrame(db, user, room, op); }
    case Account(op) => AccountRowsStay(db, op, k);
  }

  lemma AccountRowsStay(db: Db, op: AccountOp, k: (Id, Id))
    requires k in db.members && !op.HardDeleteOp?
    ensures k in ServeAccount(db, op).db.members
  {
    if op.AdminDeleteOp? {
      SoftDeleteStampsMember(db, op.user, op.now, k);
    }
  }

  predicate RoomStamped(was: RoomRow, next: RoomRow, now: Option<Time>) {
    next.code == was.code && next.createdAt == was.createdAt && Stamped(was.endedAt, next.endedAt, now)
  }

  /** A room keeps its code and the time of its creation, and its end is the time of what
      ended it. */
  lemma RoomStamps(db: Db, req: Request, room: Id)
    requires room in db.rooms && room in Handle(db, req).db.rooms
    ensures RoomStamped(db.rooms[room], Handle(db, req).db.rooms[room], NowOf(req))
  {
    match req
    case Membership(user, op) => if LoadsUser(db.users, user) { MembershipStampsRoom(db, user, op, room); }
    case Route(user, r, op) => if LoadsUser(db.users, user) { RouteStampsRoom(db, user, r, op, room); }
    case Account(op) => AccountStampsRoom(db, op, room);
  }

  lemma SoftDeleteStampsRoom(db: Db, gone: Id, now: Time, room: Id)
    requires room in db.rooms
    ensures var db' := SoftDelete(db, gone, now);
            room in db'.rooms && RoomStamped(db.rooms[room], db'.rooms[room], Some(now))
  {
  }

  lemma AccountStampsRoom(db: Db, op: AccountOp, room: Id)
    requires room in db.rooms && room in ServeAccount(db, op).db.rooms
    ensures RoomStamped(db.rooms[room], ServeAccount(db, op).db.rooms[room], NowOf(Account(op)))
  {
    if op.AdminDeleteOp? {
      SoftDeleteStampsRoom(db, op.user, op.now, room);
    } else if op.HardDeleteOp? {
      ErasedUnchanged(db, op.user);
    }
  }

  lemma TransferStampsRoom(db: Db, r: Id, actor: Id, target: Id, now: Time, room: Id)
    requires room in db.rooms
    ensures var db' := Transfer(db, r, actor, target, now).db;
            room in db'.rooms && RoomStamped(db.rooms[room], db'.rooms[room], None)
  {
    assert KeepDestination(db, r, actor, now).rooms == db.rooms;
  }

  lemma MembershipStampsRoom(db: Db, user: Id, op: MembershipOp, room: Id)
    requires room in db.rooms
    ensures var db' := ServeMembership(db, user, op).db;
            room in db'.rooms && RoomStamped(db.rooms[room], db'.rooms[room], Some(op.now))
  {
    match op
    case CreateOp(draws, name, now) => RT.CreateKeepsRooms(db, user, Taken(draws), name, now, room);
    case TransferOp(r, target, now) => TransferStampsRoom(db, r, user, target, now, room);
    case DeleteAccountOp(now) => SoftDeleteStampsRoom(db, user, now, room);
    case _ =>
  }

  lemma RouteStampsRoom(db: Db, user: Id, r: Id, op: RouteOp, room: Id)
    requires room in db.rooms
    ensures var db' := ServeRoute(db, user, r, op).db;
            room in db'.rooms && RoomStamped(db.rooms[room], db'.rooms[room], None)
  {
  }

  /** An account's deletion is the time of the delete, and only a restore clears it. */
  lemma UserStamps(db: Db, req: Request, user: Id)
    requires user in db.users && user in Handle(db, req).db.users
    ensures var was, next := db.users[user].deletedAt, Handle(db, req).db.users[user].deletedAt;
            Stamped(was, next, NowOf(req)) || (next == None && req == Account(RestoreOp(user)))
  {
    match req
    case Membership(u, op) => if LoadsUser(db.users, u) { RT.MembershipUsers(db, u, op); }
    case Route(u, room, op) => if LoadsUser(db.users, u) { TI.RouteFrame(db, u, room, op); }
    case Account(op) => AccountStampsUser(db, op, user);
  }

  lemma SoftDeleteStampsUser(db: Db, gone: Id, now: Time, user: Id)
    requires user in db.users
    ensures var db' := SoftDelete(db, gone, now);
            user in db'.users && Stamped(db.users[user].deletedAt, db'.users[user].deletedAt, Some(now))
  {
  }

  lemma AccountStampsUser(db: Db, op: AccountOp, user: Id)
    requires user in db.users && user in ServeAccount(db, op).db.users
    ensures var was, next := db.users[user].deletedAt, ServeAccount(db, op).db.users[user].deletedAt;
            Stamped(was, next, NowOf(Account(op))) || (next == None && op == RestoreOp(user))
  {
    match op
    case AdminDeleteOp(gone, now) => SoftDeleteStampsUser(db, gone, now, user);
    case HardDeleteOp(gone) => ErasedUnchanged(db, gone);
    case SignInOp(provider, subject, id, email) =>
      if SignIn(db, provider, subject, id, email).reply == Ok { SignInEffect(db, provider, subject, id, email); }
    case _ =>
  }

  // --- sign-in and erasure ------------------------------------------------------------------------------

  /** A sign-in that goes through leads to a live account, the one linked before if there was
      one; an email that comes with it is the account's, and nobody else's row changes. */
  lemma SignInEffect(db: Db, provider: string, subject: string, id: Id, email: Option<string>)
    requires SignIn(db, provider, subject, id, email).reply == Ok
    ensures var db', k := SignIn(db, provider, subject, id, email).db, (provider, subject);
            var user := if k in db.identities then db.identities[k] else id;
            && k in db'.identities && db'.identities[k] == user
            && user in db'.users && db'.users[user].deletedAt == None
            && (email.Some? ==> db'.users[user].email == email)
            && (email == None && k in db.identities ==>
                  user in db.users && db'.users[user].email == db.users[user].email)
            && (k !in db.identities ==> user !in db.users)
            && (forall u :: u != user && u in db.users ==> u in db'.users && db'.users[u] == db.users[u])
            && db'.rooms == db.rooms && db'.members == db.members
  {
  }

  /** Exactly what a hard delete that goes through leaves: in each table the rows that are
      neither the user's nor of a room they own, unchanged. */
  lemma ErasedExactly(db: Db, user: Id)
    requires user in db.users && HardDelete(db, user).reply == Ok
    ensures var db' := HardDelete(db, user).db;
            && (forall u :: u in db'.users <==> u in db.users && u != user)
            && (forall r :: r in db'.rooms <==> r in db.rooms && db.rooms[r].owner != user)
            && (forall k :: k in db'.members <==>
                  k in db.members && k.1 != user && k.0 in db.rooms && db.rooms[k.0].owner != user)
            && (forall k :: k in db'.markers <==>
                  k in db.markers && k.1 != user && k.0 in db.rooms && db.rooms[k.0].owner != user)
            && (forall id :: id in db'.messages <==>
                  && id in db.messages && db.messages[id].user != user
                  && db.messages[id].room in db.rooms && db.rooms[db.messages[id].room].owner != user)
            && (forall id :: id in db'.stops <==>
                  id in db.stops && !(db.stops[id].room in db.rooms && db.rooms[db.stops[id].room].owner == user))
  {
  }

  lemma ErasedUnchanged(db: Db, user: Id)
    ensures var db' := HardDelete(db, user).db;
            && (forall u :: u in db'.users ==> u in db.users && db'.users[u] == db.users[u])
            && (forall r :: r in db'.rooms ==> r in db.rooms && db'.rooms[r] == db.rooms[r])
            && (forall k :: k in db'.members ==> k in db.members && db'.members[k] == db.members[k])
            && (forall k :: k in db'.markers ==> k in db.markers && db'.markers[k] == db.markers[k])
            && (forall id :: id in db'.messages ==> id in db.messages && db'.messages[id] == db.messages[id])
            && (forall id :: id in db'.stops ==> id in db.stops && db'.stops[id] == db.stops[id])
  {
  }
}
