/** The database tables and what each request does to them. A request is one serial
    step: the session check of the middleware, then the service operation. Identifiers,
    times and the draws of room codes are inputs. */
module Tables {
  import opened Types
  import S = Stops

  datatype Role = Owner | Member

  datatype UserRow = UserRow(email: Option<string>, deletedAt: Option<Time>)

  datatype RoomRow = RoomRow(
    code: string,
    name: Option<string>,
    owner: Id,
    createdAt: Time,
    endedAt: Option<Time>,
    destLat: Option<real>,
    destLng: Option<real>,
    destName: Option<string>,
    destNotes: Option<string>,
    destSetAt: Option<Time>,
    destSetBy: Option<Id>)

  datatype MemberRow = MemberRow(role: Role, kicked: bool, joinedAt: Time, leftAt: Option<Time>)

  datatype MarkerRow = MarkerRow(lat: real, lng: real, title: Option<string>, updatedAt: Time)

  datatype MessageRow = MessageRow(room: Id, user: Id, body: string, createdAt: Time)

  type Members = map<(Id, Id), MemberRow>

  datatype Db = Db(
    users: map<Id, UserRow>,
    identities: map<(string, string), Id>,
    rooms: map<Id, RoomRow>,
    members: Members,
    stops: S.Table,
    markers: map<(Id, Id), MarkerRow>,
    messages: map<Id, MessageRow>)

  const EMPTY: Db := Db(map[], map[], map[], map[], map[], map[], map[])

  datatype Reply = Ok | Unauthorized | Forbidden | NotFound | BadRequest | Failed

  datatype Outcome = Outcome(db: Db, reply: Reply)

  const CODE_ATTEMPTS: nat := 8
  const MAX_ROOM_NAME: nat := 40
  const MAX_MESSAGE: nat := 2000

  // --- reads -------------------------------------------------------------------------

  /** LoadUser succeeds: the account exists and is not deleted. */
  predicate LoadsUser(users: map<Id, UserRow>, user: Id) {
    user in users && users[user].deletedAt.None?
  }

  predicate RoomActive(rooms: map<Id, RoomRow>, room: Id) {
    room in rooms && rooms[room].endedAt.None?
  }

  /** The row is there and has not left; what `ListMembers` and `GetMember` ask. */
  predicate Listed(members: Members, room: Id, user: Id) {
    (room, user) in members && members[(room, user)].leftAt.None?
  }

  /** What `ActiveMembership` asks. */
  predicate ActiveMember(members: Members, room: Id, user: Id) {
    Listed(members, room, user) && !members[(room, user)].kicked
  }

  predicate RequireOwner(members: Members, room: Id, actor: Id) {
    ActiveMember(members, room, actor) && members[(room, actor)].role == Owner
  }

  predicate HoldsCode(rooms: map<Id, RoomRow>, room: Id, code: string) {
    room in rooms && rooms[room].code == code && rooms[room].endedAt.None?
  }

  /** A row that `GetActiveByCode` may answer. */
  ghost function RoomByCode(db: Db, code: string): Option<Id> {
    if room :| HoldsCode(db.rooms, room, code) then Some(room) else None
  }

  predicate InBounds(lat: real, lng: real) {
    -90.0 <= lat <= 90.0 && -180.0 <= lng <= 180.0
  }

  datatype Destination = Destination(
    lat: real, lng: real, name: Option<string>, notes: Option<string>, setAt: Option<Time>, setBy: Option<Id>)

  /** What `GetDestination` reads from a room row. */
  function ReadDestination(row: RoomRow): Option<Destination> {
    if row.destLat.Some? && row.destLng.Some? then
      Some(Destination(row.destLat.value, row.destLng.value, row.destName, row.destNotes, row.destSetAt, row.destSetBy))
    else None
  }

  // --- room lifecycle ------------------------------------------------------------------

  /** One draw of `Create`: a row id and a code, or a failing random source. */
  datatype Draw = Draw(id: Id, code: Option<string>)

  /** The insert hits a unique index. */
  predicate Collides(db: Db, owner: Id, id: Id, code: string) {
    id in db.rooms || (id, owner) in db.members || exists r :: r in db.rooms && HoldsCode(db.rooms, r, code)
  }

  function InsertRoom(db: Db, owner: Id, id: Id, code: string, name: Option<string>, now: Time): Db {
    db.(rooms := db.rooms[id := RoomRow(code, name, owner, now, None, None, None, None, None, None, None)],
        members := db.members[(id, owner) := MemberRow(Owner, false, now, None)])
  }

  /** The retry loop of `Create` over its remaining draws. */
  function Create(db: Db, owner: Id, draws: seq<Draw>, name: Option<string>, now: Time): Outcome
    decreases |draws|
  {
    if draws == [] || draws[0].code.None? then Outcome(db, Failed)
    else if Collides(db, owner, draws[0].id, draws[0].code.value) then Create(db, owner, draws[1..], name, now)
    else if owner !in db.users then Outcome(db, Failed)
    else Outcome(InsertRoom(db, owner, draws[0].id, draws[0].code.value, name, now), Ok)
  }

  /** `Create` gives up after its attempts. */
  function Taken(draws: seq<Draw>): seq<Draw> {
    if |draws| <= CODE_ATTEMPTS then draws else draws[..CODE_ATTEMPTS]
  }

  function UpsertMember(members: Members, room: Id, user: Id, now: Time): Members {
    if (room, user) in members then
      members[(room, user) := members[(room, user)].(leftAt := None, kicked := false)]
    else members[(room, user) := MemberRow(Member, false, now, None)]
  }

  ghost function Join(db: Db, user: Id, code: string, now: Time): Outcome {
    match RoomByCode(db, code)
    case None => Outcome(db, NotFound)
    case Some(room) => Outcome(db.(members := UpsertMember(db.members, room, user, now)), Ok)
  }

  function MarkLeft(members: Members, room: Id, user: Id, now: Time): Members {
    if Listed(members, room, user) then
      members[(room, user) := members[(room, user)].(leftAt := Some(now))]
    else members
  }

  function Leave(db: Db, room: Id, user: Id, now: Time): Outcome {
    Outcome(db.(members := MarkLeft(db.members, room, user, now)), Ok)
  }

  function MarkKicked(members: Members, room: Id, user: Id, now: Time): Members {
    if Listed(members, room, user) then
      members[(room, user) := members[(room, user)].(kicked := true, leftAt := Some(now))]
    else members
  }

  function Kick(db: Db, room: Id, actor: Id, target: Id, now: Time): Outcome {
    if !RequireOwner(db.members, room, actor) then Outcome(db, Forbidden)
    else if actor == target then Outcome(db, BadRequest)
    else if !Listed(db.members, room, target) then Outcome(db, NotFound)
    else Outcome(db.(members := MarkKicked(db.members, room, target, now)), Ok)
  }

  function EndRoom(db: Db, room: Id, actor: Id, now: Time): Outcome {
    if !RequireOwner(db.members, room, actor) then Outcome(db, Forbidden)
    else if !RoomActive(db.rooms, room) then Outcome(db, NotFound)
    else Outcome(db.(rooms := db.rooms[room := db.rooms[room].(endedAt := Some(now))]), Ok)
  }

  function Rename(db: Db, room: Id, actor: Id, name: string): Outcome {
    if !RequireOwner(db.members, room, actor) then Outcome(db, Forbidden)
    else if name == "" || |name| > MAX_ROOM_NAME then Outcome(db, BadRequest)
    else if !RoomActive(db.rooms, room) then Outcome(db, NotFound)
    else Outcome(db.(rooms := db.rooms[room := db.rooms[room].(name := Some(name))]), Ok)
  }

  /** The outgoing owner keeps the shared destination as a private marker. */
  function KeepDestination(db: Db, room: Id, actor: Id, now: Time): Db {
    if room in db.rooms && ReadDestination(db.rooms[room]).Some? then
      var d := ReadDestination(db.rooms[room]).value;
      db.(markers := db.markers[(room, actor) := MarkerRow(d.lat, d.lng, d.name, now)])
    else db
  }

  /** The transaction: the room's owner and the two roles. */
  function HandOver(db: Db, room: Id, actor: Id, target: Id): Db
    requires room in db.rooms && (room, target) in db.members
  {
    var promoted := db.members[(room, target) := db.members[(room, target)].(role := Owner)];
    db.(rooms := db.rooms[room := db.rooms[room].(owner := target)],
        members := if (room, actor) in promoted then promoted[(room, actor) := promoted[(room, actor)].(role := Member)]
                   else promoted)
  }

  function Transfer(db: Db, room: Id, actor: Id, target: Id, now: Time): Outcome {
    if !RequireOwner(db.members, room, actor) then Outcome(db, Forbidden)
    else if actor == target then Outcome(db, BadRequest)
    else if !ActiveMember(db.members, room, target) then Outcome(db, Forbidden)
    else
      var kept := KeepDestination(db, room, actor, now);
      if !RoomActive(kept.rooms, room) then Outcome(kept, NotFound)
      else Outcome(HandOver(kept, room, actor, target), Ok)
  }

  // --- destination, markers, stops, messages ---------------------------------------------

  function SetDestination(db: Db, room: Id, actor: Id, lat: real, lng: real, name: Option<string>,
                          notes: Option<string>, now: Time): Outcome {
    if !RequireOwner(db.members, room, actor) then Outcome(db, Forbidden)
    else if !InBounds(lat, lng) then Outcome(db, BadRequest)
    else if !RoomActive(db.rooms, room) then Outcome(db, NotFound)
    else Outcome(db.(rooms := db.rooms[room := db.rooms[room].(
                                destLat := Some(lat), destLng := Some(lng), destName := name, destNotes := notes,
                                destSetAt := Some(now), destSetBy := Some(actor))]), Ok)
  }

  function EditDestination(db: Db, room: Id, actor: Id, name: Option<string>, notes: Option<string>): Outcome {
    if !RequireOwner(db.members, room, actor) then Outcome(db, Forbidden)
    else if !RoomActive(db.rooms, room) || db.rooms[room].destLat.None? || db.rooms[room].destLng.None? then
      Outcome(db, NotFound)
    else Outcome(db.(rooms := db.rooms[room := db.rooms[room].(destName := name, destNotes := notes)]), Ok)
  }

  /** Clears the pin, not the name and notes, and drops the room's stops. */
  function ClearDestination(db: Db, room: Id, actor: Id): Outcome {
    if !RequireOwner(db.members, room, actor) then Outcome(db, Forbidden)
    else if !RoomActive(db.rooms, room) then Outcome(db, NotFound)
    else Outcome(db.(rooms := db.rooms[room := db.rooms[room].(
                                destLat := None, destLng := None, destSetAt := None, destSetBy := None)],
                     stops := S.ClearStops(db.stops, {room})), Ok)
  }

  function SetMarker(db: Db, room: Id, user: Id, lat: real, lng: real, title: Option<string>, now: Time): Outcome {
    if !ActiveMember(db.members, room, user) then Outcome(db, Forbidden)
    else if !InBounds(lat, lng) then Outcome(db, BadRequest)
    else Outcome(db.(markers := db.markers[(room, user) := MarkerRow(lat, lng, title, now)]), Ok)
  }

  function ClearMarker(db: Db, room: Id, user: Id): Outcome {
    if !ActiveMember(db.members, room, user) then Outcome(db, Forbidden)
    else Outcome(db.(markers := db.markers - {(room, user)}), Ok)
  }

  ghost function AddStop(db: Db, room: Id, actor: Id, id: Id, lat: real, lng: real, title: Option<string>,
      now: Time): Outcome {
    if !RequireOwner(db.members, room, actor) then Outcome(db, Forbidden)
    else if !InBounds(lat, lng) then Outcome(db, BadRequest)
    else Outcome(db.(stops := S.AddStop(db.stops, room, id, lat, lng, title, actor, now)),
                 if S.CanAdd(db.stops, room, id) then Ok else Failed)
  }

  function LabelStop(db: Db, room: Id, actor: Id, id: Id, title: Option<string>): Outcome {
    if !RequireOwner(db.members, room, actor) then Outcome(db, Forbidden)
    else Outcome(db.(stops := S.Relabel(db.stops, room, id, title)),
                 if S.InRoom(db.stops, room, id) then Ok else NotFound)
  }

  function RemoveStop(db: Db, room: Id, actor: Id, id: Id): Outcome {
    if !RequireOwner(db.members, room, actor) then Outcome(db, Forbidden)
    else Outcome(db.(stops := S.RemoveStop(db.stops, room, id)),
                 if S.InRoom(db.stops, room, id) then Ok else NotFound)
  }

  function ClearStops(db: Db, room: Id, actor: Id): Outcome {
    if !RequireOwner(db.members, room, actor) then Outcome(db, Forbidden)
    else Outcome(db.(stops := S.ClearStops(db.stops, {room})), Ok)
  }

  function PostMessage(db: Db, room: Id, user: Id, id: Id, body: string, now: Time): Outcome {
    if !ActiveMember(db.members, room, user) then Outcome(db, Forbidden)
    else if body == "" || |body| > MAX_MESSAGE then Outcome(db, BadRequest)
    else if id in db.messages then Outcome(db, Failed)
    else Outcome(db.(messages := db.messages[id := MessageRow(room, user, body, now)]), Ok)
  }

  // --- accounts ------------------------------------------------------------------------------

  function Guest(db: Db, id: Id): Outcome {
    if id in db.users then Outcome(db, Failed)
    else Outcome(db.(users := db.users[id := UserRow(None, None)]), Ok)
  }

  /** Find-or-create in one transaction; the closing read rolls everything back for a
      deleted account. */
  function SignIn(db: Db, provider: string, subject: string, id: Id, email: Option<string>): Outcome {
    if (provider, subject) in db.identities then
      var user := db.identities[(provider, subject)];
      if !LoadsUser(db.users, user) then Outcome(db, Failed)
      else if email.None? then Outcome(db, Ok)
      else Outcome(db.(users := db.users[user := db.users[user].(email := email)]), Ok)
    else if id in db.users then Outcome(db, Failed)
    else Outcome(db.(users := db.users[id := UserRow(email, None)],
                     identities := db.identities[(provider, subject) := id]), Ok)
  }

  function StampDeleted(db: Db, user: Id, now: Time): Db {
    if LoadsUser(db.users, user) then db.(users := db.users[user := db.users[user].(deletedAt := Some(now))]) else db
  }

  function EndOwned(db: Db, user: Id, now: Time): Db {
    db.(rooms := map r | r in db.rooms :: if db.rooms[r].owner == user && db.rooms[r].endedAt.None?
                                          then db.rooms[r].(endedAt := Some(now)) else db.rooms[r])
  }

  function KickEverywhere(db: Db, user: Id, now: Time): Db {
    db.(members := map k | k in db.members :: if k.1 == user && db.members[k].leftAt.None?
                                              then db.members[k].(kicked := true, leftAt := Some(now))
                                              else db.members[k])
  }

  /** Both deletion paths; the in-app one runs the three updates in a transaction. */
  function SoftDelete(db: Db, user: Id, now: Time): Db {
    KickEverywhere(EndOwned(StampDeleted(db, user, now), user, now), user, now)
  }

  /** The admin path runs them one by one: only the first `done` have happened when a
      statement fails. */
  function AdminDelete(db: Db, user: Id, now: Time, done: nat): Db {
    if done == 0 then db
    else if done == 1 then StampDeleted(db, user, now)
    else if done == 2 then EndOwned(StampDeleted(db, user, now), user, now)
    else SoftDelete(db, user, now)
  }

  function Restore(db: Db, user: Id): Db {
    if user in db.users then db.(users := db.users[user := db.users[user].(deletedAt := None)]) else db
  }

  function KeptRooms(rooms: map<Id, RoomRow>, user: Id): map<Id, RoomRow> {
    map r | r in rooms && rooms[r].owner != user :: rooms[r]
  }

  /** Rows keyed by room and user: members and markers. */
  function KeptRows<V>(rows: map<(Id, Id), V>, user: Id, rooms: set<Id>): map<(Id, Id), V> {
    map k | k in rows && k.1 != user && k.0 in rooms :: rows[k]
  }

  function KeptMessages(messages: map<Id, MessageRow>, user: Id, rooms: set<Id>): map<Id, MessageRow> {
    map k | k in messages && messages[k].user != user && messages[k].room in rooms :: messages[k]
  }

  function KeptIdentities(identities: map<(string, string), Id>, user: Id): map<(string, string), Id> {
    map k | k in identities && identities[k] != user :: identities[k]
  }

  /** The rows that the cascade of deleting a user leaves. */
  function Cascade(db: Db, user: Id): Db {
    var rooms := KeptRooms(db.rooms, user);
    Db(db.users - {user},
       KeptIdentities(db.identities, user),
       rooms,
       KeptRows(db.members, user, rooms.Keys),
       S.ClearStops(db.stops, db.rooms.Keys - rooms.Keys),
       KeptRows(db.markers, user, rooms.Keys),
       KeptMessages(db.messages, user, rooms.Keys))
  }

  /** A column without a cascade still refers to the user when the references of the users
      table are enforced, in the order in which they were declared: the rooms they own are
      gone, but the stops of these rooms, which only the rooms cascade to, are not. */
  predicate StillReferenced(db: Db, user: Id) {
    || (exists r :: r in db.rooms && db.rooms[r].owner != user && db.rooms[r].destSetBy == Some(user))
    || (exists id :: id in db.stops && db.stops[id].createdBy == user)
  }

  function HardDelete(db: Db, user: Id): Outcome {
    if user !in db.users then Outcome(db, Ok)
    else if StillReferenced(db, user) then Outcome(db, Failed)
    else Outcome(Cascade(db, user), Ok)
  }

  // --- requests ------------------------------------------------------------------------------

  /** Membership requests of a signed-in user. */
  datatype MembershipOp =
    | CreateOp(draws: seq<Draw>, name: Option<string>, now: Time)
    | JoinOp(code: string, now: Time)
    | LeaveOp(room: Id, now: Time)
    | KickOp(room: Id, target: Id, now: Time)
    | EndOp(room: Id, now: Time)
    | TransferOp(room: Id, target: Id, now: Time)
    | DeleteAccountOp(now: Time)

  /** Requests of a signed-in user about what a room shows. */
  datatype RouteOp =
    | RenameOp(roomName: string)
    | SetDestOp(lat: real, lng: real, name: Option<string>, notes: Option<string>, now: Time)
    | EditDestOp(name: Option<string>, notes: Option<string>)
    | ClearDestOp
    | SetMarkerOp(lat: real, lng: real, title: Option<string>, now: Time)
    | ClearMarkerOp
    | AddStopOp(id: Id, lat: real, lng: real, title: Option<string>, now: Time)
    | LabelStopOp(id: Id, title: Option<string>)
    | RemoveStopOp(id: Id)
    | ClearStopsOp
    | PostOp(id: Id, body: string, now: Time)

  /** Sign-in and the admin dashboard. */
  datatype AccountOp =
    | GuestOp(id: Id)
    | SignInOp(provider: string, subject: string, id: Id, email: Option<string>)
    | AdminDeleteOp(user: Id, now: Time)
    | RestoreOp(user: Id)
    | HardDeleteOp(user: Id)

  datatype Request =
    | Membership(user: Id, op: MembershipOp)
    | Route(user: Id, room: Id, edit: RouteOp)
    | Account(act: AccountOp)

  ghost function ServeMembership(db: Db, user: Id, op: MembershipOp): Outcome {
    match op
    case CreateOp(draws, name, now) =>
      Create(db, user, Taken(draws), name, now)
    case JoinOp(code, now) => Join(db, user, code, now)
    case LeaveOp(room, now) => Leave(db, room, user, now)
    case KickOp(room, target, now) => Kick(db, room, user, target, now)
    case EndOp(room, now) => EndRoom(db, room, user, now)
    case TransferOp(room, target, now) => Transfer(db, room, user, target, now)
    case DeleteAccountOp(now) => Outcome(SoftDelete(db, user, now), Ok)
  }

  ghost function ServeRoute(db: Db, user: Id, room: Id, op: RouteOp): Outcome {
    match op
    case RenameOp(name) => Rename(db, room, user, name)
    case SetDestOp(lat, lng, name, notes, now) => SetDestination(db, room, user, lat, lng, name, notes, now)
    case EditDestOp(name, notes) => EditDestination(db, room, user, name, notes)
    case ClearDestOp => ClearDestination(db, room, user)
    case SetMarkerOp(lat, lng, title, now) => SetMarker(db, room, user, lat, lng, title, now)
    case ClearMarkerOp => ClearMarker(db, room, user)
    case AddStopOp(id, lat, lng, title, now) => AddStop(db, room, user, id, lat, lng, title, now)
    case LabelStopOp(id, title) => LabelStop(db, room, user, id, title)
    case RemoveStopOp(id) => RemoveStop(db, room, user, id)
    case ClearStopsOp => ClearStops(db, room, user)
    case PostOp(id, body, now) => PostMessage(db, room, user, id, body, now)
  }

  function ServeAccount(db: Db, op: AccountOp): Outcome {
    match op
    case GuestOp(id) => Guest(db, id)
    case SignInOp(provider, subject, id, email) => SignIn(db, provider, subject, id, email)
    case AdminDeleteOp(user, now) => Outcome(SoftDelete(db, user, now), Ok)
    case RestoreOp(user) => Outcome(Restore(db, user), Ok)
    case HardDeleteOp(user) => HardDelete(db, user)
  }

  /** One request: the session check, then the operation. */
  ghost function Handle(db: Db, req: Request): Outcome {
    match req
    case Membership(user, op) =>
      if LoadsUser(db.users, user) then ServeMembership(db, user, op) else Outcome(db, Unauthorized)
    case Route(user, room, op) =>
      if LoadsUser(db.users, user) then ServeRoute(db, user, room, op) else Outcome(db, Unauthorized)
    case Account(op) => ServeAccount(db, op)
  }

  ghost function HandleAll(db: Db, reqs: seq<Request>): Db
    decreases |reqs|
  {
    if reqs == [] then db else HandleAll(Handle(db, reqs[0]).db, reqs[1..])
  }
}
