/** Destinations, stops and private markers over whole runs of requests. */
module Places {
  import opened Types
  import opened Tables
  import opened TableInvariants
  import RT = RoomTheorems
  import S = Stops

  /** A point of the map, in degrees. */
  predicate OnMap(lat: real, lng: real) {
    -90.0 <= lat && lat <= 90.0 && -180.0 <= lng && lng <= 180.0
  }

  // --- the destination columns refine an optional destination --------------------------------

  /** What a request does to a room's destination, seen as one optional value. */
  datatype DestOp =
    | Keep
    | Put(dest: Destination)
    | Edit(name: Option<string>, notes: Option<string>)
    | Drop

  function ApplyDest(d: Option<Destination>, op: DestOp): Option<Destination> {
    match op
    case Keep => d
    case Put(dest) => Some(dest)
    case Edit(name, notes) => if d.Some? then Some(d.value.(name := name, notes := notes)) else None
    case Drop => None
  }

  /** Read from the request and from who may edit the room; never from the columns. */
  function DestOpOf(db: Db, req: Request, room: Id): DestOp {
    if !req.Route? || req.room != room || !LoadsUser(db.users, req.user)
       || !RequireOwner(db.members, room, req.user) || !RoomActive(db.rooms, room) then Keep
    else
      match req.edit
      case SetDestOp(lat, lng, name, notes, now) =>
        if OnMap(lat, lng) then Put(Destination(lat, lng, name, notes, Some(now), Some(req.user))) else Keep
      case EditDestOp(name, notes) => Edit(name, notes)
      case ClearDestOp => Drop
      case _ => Keep
  }

  function DestOf(rooms: Rooms, room: Id): Option<Destination> {
    if room in rooms then ReadDestination(rooms[room]) else None
  }

  lemma RouteDest(db: Db, user: Id, room: Id, op: RouteOp)
    requires LoadsUser(db.users, user)
    ensures DestOf(ServeRoute(db, user, room, op).db.rooms, room) ==
            ApplyDest(DestOf(db.rooms, room), DestOpOf(db, Route(user, room, op), room))
  {
  }

  lemma MembershipDest(db: Db, user: Id, op: MembershipOp, room: Id)
    requires room in db.rooms
    ensures DestOf(ServeMembership(db, user, op).db.rooms, room) == DestOf(db.rooms, room)
  {
    if op.CreateOp? {
      var draws := Taken(op.draws);
      RT.CreateKeepsRooms(db, user, draws, op.name, op.now, room);
    } else {
      LifecycleDest(db, user, op, room);
    }
  }

  lemma LifecycleDest(db: Db, user: Id, op: MembershipOp, room: Id)
    requires room in db.rooms && !op.CreateOp?
    ensures DestOf(ServeMembership(db, user, op).db.rooms, room) == DestOf(db.rooms, room)
  {
  }

  lemma AccountDest(db: Db, op: AccountOp, room: Id)
    requires room in db.rooms && room in ServeAccount(db, op).db.rooms
    ensures DestOf(ServeAccount(db, op).db.rooms, room) == DestOf(db.rooms, room)
  {
  }

  /** Every request does to the destination columns what it does to an optional value:
      the name and notes a clear leaves behind reach no later read or edit. */
  lemma StepDest(db: Db, req: Request, room: Id)
    requires room in db.rooms && room in Handle(db, req).db.rooms
    ensures DestOf(Handle(db, req).db.rooms, room) == ApplyDest(DestOf(db.rooms, room), DestOpOf(db, req, room))
  {
    match req
    case Membership(user, op) => MembershipDest(db, user, op, room);
    case Route(user, r, op) =>
      if LoadsUser(db.users, user) {
        if r == room {
          RouteDest(db, user, room, op);
        } else {
          RouteFrame(db, user, r, op);
        }
      }
    case Account(op) => AccountDest(db, op, room);
  }

  /** The destination an optional value would hold after the run. */
  ghost function RunDest(d: Option<Destination>, db: Db, reqs: seq<Request>, room: Id): Option<Destination>
    decreases |reqs|
  {
    if reqs == [] then d
    else RunDest(ApplyDest(d, DestOpOf(db, reqs[0], room)), Handle(db, reqs[0]).db, reqs[1..], room)
  }

  /** A room that is gone does not come back within a run. */
  ghost predicate StaysThere(db: Db, reqs: seq<Request>, room: Id)
    decreases |reqs|
  {
    room in db.rooms && (reqs == [] || StaysThere(Handle(db, reqs[0]).db, reqs[1..], room))
  }

  /** Destination columns refine an optional destination on every run of a room's life. */
  lemma {:induction false} DestinationRefines(db: Db, reqs: seq<Request>, room: Id)
    requires StaysThere(db, reqs, room)
    ensures DestOf(HandleAll(db, reqs).rooms, room) == RunDest(DestOf(db.rooms, room), db, reqs, room)
    decreases |reqs|
  {
    if reqs != [] {
      StepDest(db, reqs[0], room);
      DestinationRefines(Handle(db, reqs[0]).db, reqs[1..], room);
    }
  }

  // --- everything placed is on the map --------------------------------------------------------

  /** The pin's columns are set together, with who set it and when, and within bounds. */
  ghost predicate PinOk(row: RoomRow) {
    && (row.destLat.Some? <==> row.destLng.Some?)
    && (row.destLat.Some? <==> row.destSetAt.Some?)
    && (row.destLat.Some? <==> row.destSetBy.Some?)
    && (row.destLat.Some? ==> OnMap(row.destLat.value, row.destLng.value))
  }

  ghost predicate PinsOk(rooms: Rooms) {
    forall r :: r in rooms ==> PinOk(rooms[r])
  }

  ghost predicate MarkersOk(markers: map<(Id, Id), MarkerRow>) {
    forall k :: k in markers ==> OnMap(markers[k].lat, markers[k].lng)
  }

  ghost predicate StopsOk(stops: S.Table) {
    forall id :: id in stops ==> OnMap(stops[id].lat, stops[id].lng)
  }

  ghost predicate Placed(db: Db) {
    PinsOk(db.rooms) && MarkersOk(db.markers) && StopsOk(db.stops)
  }

  lemma RoutePins(db: Db, user: Id, room: Id, op: RouteOp)
    requires PinsOk(db.rooms)
    ensures PinsOk(ServeRoute(db, user, room, op).db.rooms)
  {
    var db' := ServeRoute(db, user, room, op).db;
    RouteFrame(db, user, room, op);
    if db'.rooms != db.rooms {
      assert PinOk(db.rooms[room]);
      assert PinOk(db'.rooms[room]);
    }
  }

  lemma RoutePlaced(db: Db, user: Id, room: Id, op: RouteOp)
    requires Placed(db)
    ensures Placed(ServeRoute(db, user, room, op).db)
  {
    RoutePins(db, user, room, op);
  }

  lemma {:induction false} CreatePlaced(db: Db, owner: Id, draws: seq<Draw>, name: Option<string>, now: Time)
    requires Placed(db)
    ensures Placed(Create(db, owner, draws, name, now).db)
    decreases |draws|
  {
    if draws != [] && draws[0].code.Some? && Collides(db, owner, draws[0].id, draws[0].code.value) {
      CreatePlaced(db, owner, draws[1..], name, now);
    }
  }

  lemma TransferPlaced(db: Db, room: Id, actor: Id, target: Id, now: Time)
    requires Placed(db)
    ensures Placed(Transfer(db, room, actor, target, now).db)
  {
    assert room in db.rooms ==> PinOk(db.rooms[room]);
    assert Placed(KeepDestination(db, room, actor, now));
  }

  lemma SoftDeletePlaced(db: Db, user: Id, now: Time)
    requires Placed(db)
    ensures Placed(SoftDelete(db, user, now))
  {
    var db' := SoftDelete(db, user, now);
    forall r | r in db'.rooms ensures PinOk(db'.rooms[r]) {
      assert PinOk(db.rooms[r]);
    }
  }

  lemma MembershipPlaced(db: Db, user: Id, op: MembershipOp)
    requires Placed(db)
    ensures Placed(ServeMembership(db, user, op).db)
  {
    match op
    case CreateOp(draws, name, now) =>
      CreatePlaced(db, user, Taken(draws), name, now);
    case JoinOp(code, now) =>
    case LeaveOp(room, now) =>
    case KickOp(room, target, now) =>
    case EndOp(room, now) =>
      assert room in db.rooms ==> PinOk(db.rooms[room]);
    case TransferOp(room, target, now) => TransferPlaced(db, room, user, target, now);
    case DeleteAccountOp(now) => SoftDeletePlaced(db, user, now);
  }

  lemma AccountPlaced(db: Db, op: AccountOp)
    requires Placed(db)
    ensures Placed(ServeAccount(db, op).db)
  {
    match op
    case GuestOp(id) =>
    case SignInOp(provider, subject, id, email) =>
    case AdminDeleteOp(user, now) => SoftDeletePlaced(db, user, now);
    case RestoreOp(user) =>
    case HardDeleteOp(user) =>
  }

  /** After every run each room's pin columns are set together or not at all, and every
      destination, stop and private marker, the one copied on a transfer included, is
      within the coordinate bounds. */
  lemma {:induction false} PlacesOnTheMap(db: Db, reqs: seq<Request>)
    requires Placed(db)
    ensures Placed(HandleAll(db, reqs))
    decreases |reqs|
  {
    if reqs != [] {
      match reqs[0] {
        case Membership(user, op) => MembershipPlaced(db, user, op);
        case Route(user, room, op) => RoutePlaced(db, user, room, op);
        case Account(op) => AccountPlaced(db, op);
      }
      PlacesOnTheMap(Handle(db, reqs[0]).db, reqs[1..]);
    }
  }

  // --- private markers --------------------------------------------------------------------------

  datatype MarkerOp = KeepMarker | PutMarker(row: MarkerRow) | DropMarker

  /** What a request of the marker's owner does to it; nobody else's request touches it,
      except a hard delete that takes the room or the user. */
  function MarkerOpOf(db: Db, req: Request, k: (Id, Id)): MarkerOp {
    match req
    case Route(user, room, SetMarkerOp(lat, lng, title, now)) =>
      if (room, user) == k && LoadsUser(db.users, user) && ActiveMember(db.members, room, user) && OnMap(lat, lng)
      then PutMarker(MarkerRow(lat, lng, title, now)) else KeepMarker
    case Route(user, room, ClearMarkerOp) =>
      if (room, user) == k && LoadsUser(db.users, user) && ActiveMember(db.members, room, user)
          then DropMarker else KeepMarker
    case Membership(user, TransferOp(room, target, now)) =>
      if && (room, user) == k && LoadsUser(db.users, user) && RequireOwner(db.members, room, user)
         && target != user && ActiveMember(db.members, room, target) && DestOf(db.rooms, room).Some?
      then var d := DestOf(db.rooms, room).value; PutMarker(MarkerRow(d.lat, d.lng, d.name, now))
      else KeepMarker
    case Account(HardDeleteOp(user)) =>
      if && user in db.users && HardDelete(db, user).reply == Ok
         && (k.1 == user || k.0 !in db.rooms || db.rooms[k.0].owner == user)
      then DropMarker else KeepMarker
    case _ => KeepMarker
  }

  function MarkerOf(markers: map<(Id, Id), MarkerRow>, k: (Id, Id)): Option<MarkerRow> {
    if k in markers then Some(markers[k]) else None
  }

  function ApplyMarker(m: Option<MarkerRow>, op: MarkerOp): Option<MarkerRow> {
    match op case KeepMarker => m case PutMarker(row) => Some(row) case DropMarker => None
  }

  /** Markers are private: each request changes a user's marker in a room only as that
      user's own edit or transfer says. */
  lemma StepMarker(db: Db, req: Request, k: (Id, Id))
    ensures MarkerOf(Handle(db, req).db.markers, k) == ApplyMarker(MarkerOf(db.markers, k), MarkerOpOf(db, req, k))
  {
    match req
    case Membership(user, op) => if LoadsUser(db.users, user) { MembershipMarker(db, user, op, k); }
    case Route(user, room, op) => if LoadsUser(db.users, user) { RouteMarker(db, user, room, op, k); }
    case Account(op) => AccountMarker(db, op, k);
  }

  lemma RouteMarker(db: Db, user: Id, room: Id, op: RouteOp, k: (Id, Id))
    requires LoadsUser(db.users, user)
    ensures MarkerOf(ServeRoute(db, user, room, op).db.markers, k) ==
            ApplyMarker(MarkerOf(db.markers, k), MarkerOpOf(db, Route(user, room, op), k))
  {
  }

  lemma MembershipMarker(db: Db, user: Id, op: MembershipOp, k: (Id, Id))
    requires LoadsUser(db.users, user)
    ensures MarkerOf(ServeMembership(db, user, op).db.markers, k) ==
            ApplyMarker(MarkerOf(db.markers, k), MarkerOpOf(db, Membership(user, op), k))
  {
    if op.CreateOp? {
      CreateMarkers(db, user, Taken(op.draws), op.name, op.now);
    } else if op.TransferOp? {
      assert Transfer(db, op.room, user, op.target, op.now).db.markers ==
             if RequireOwner(db.members, op.room, user) && user != op.target
                 && ActiveMember(db.members, op.room, op.target)
             then KeepDestination(db, op.room, user, op.now).markers else db.markers;
    }
  }

  lemma {:induction false} CreateMarkers(db: Db, owner: Id, draws: seq<Draw>, name: Option<string>, now: Time)
    ensures Create(db, owner, draws, name, now).db.markers == db.markers
    decreases |draws|
  {
    if draws != [] && draws[0].code.Some? && Collides(db, owner, draws[0].id, draws[0].code.value) {
      CreateMarkers(db, owner, draws[1..], name, now);
    }
  }

  lemma AccountMarker(db: Db, op: AccountOp, k: (Id, Id))
    ensures MarkerOf(ServeAccount(db, op).db.markers, k) ==
            ApplyMarker(MarkerOf(db.markers, k), MarkerOpOf(db, Account(op), k))
  {
  }

  // --- stops of all rooms over requests ---------------------------------------------------------

  /** The rooms a hard delete takes with it. */
  ghost function Dropped(db: Db, req: Request): set<Id> {
    if req.Account? && req.act.HardDeleteOp? && HardDelete(db, req.act.user).db != db then
      db.rooms.Keys - KeptRooms(db.rooms, req.act.user).Keys
    else {}
  }

  /** What a request does to the stops, as a list operation; most do nothing. */
  ghost function StopOpOf(db: Db, req: Request): S.Op {
    if req.Route? && LoadsUser(db.users, req.user) && RequireOwner(db.members, req.room, req.user) then
      match req.edit
      case AddStopOp(id, lat, lng, title, now) =>
        if OnMap(lat, lng) then S.Add(req.room, id, lat, lng, title, req.user, now) else S.Clear({})
      case LabelStopOp(id, title) => S.SetLabel(req.room, id, title)
      case RemoveStopOp(id) => S.Remove(req.room, id)
      case ClearStopsOp => S.Clear({req.room})
      case ClearDestOp => if RoomActive(db.rooms, req.room) then S.Clear({req.room}) else S.Clear({})
      case _ => S.Clear({})
    else S.Clear(Dropped(db, req))
  }

  lemma ClearNothing(t: S.Table)
    ensures S.ClearStops(t, {}) == t
  {
  }

  lemma {:induction false} CreateStops(db: Db, owner: Id, draws: seq<Draw>, name: Option<string>, now: Time)
    ensures Create(db, owner, draws, name, now).db.stops == db.stops
    decreases |draws|
  {
    if draws != [] && draws[0].code.Some? && Collides(db, owner, draws[0].id, draws[0].code.value) {
      CreateStops(db, owner, draws[1..], name, now);
    }
  }

  lemma MembershipStops(db: Db, user: Id, op: MembershipOp)
    ensures ServeMembership(db, user, op).db.stops == db.stops
  {
    if op.CreateOp? {
      CreateStops(db, user, Taken(op.draws), op.name, op.now);
    } else {
      LifecycleStops(db, user, op);
    }
  }

  lemma LifecycleStops(db: Db, user: Id, op: MembershipOp)
    requires !op.CreateOp?
    ensures ServeMembership(db, user, op).db.stops == db.stops
  {
  }

  lemma RouteStops(db: Db, user: Id, room: Id, op: RouteOp)
    requires LoadsUser(db.users, user)
    ensures ServeRoute(db, user, room, op).db.stops == S.Apply(db.stops, StopOpOf(db, Route(user, room, op)))
  {
    ClearNothing(db.stops);
  }

  lemma AccountStops(db: Db, op: AccountOp)
    ensures ServeAccount(db, op).db.stops == S.ClearStops(db.stops, Dropped(db, Account(op)))
  {
    ClearNothing(db.stops);
    if op.HardDeleteOp? {
      assert op.user in db.users ==> Cascade(db, op.user) != db;
    }
  }

  lemma StepStops(db: Db, req: Request)
    ensures Handle(db, req).db.stops == S.Apply(db.stops, StopOpOf(db, req))
  {
    ClearNothing(db.stops);
    match req
    case Membership(user, op) => MembershipStops(db, user, op);
    case Route(user, room, op) => if LoadsUser(db.users, user) { RouteStops(db, user, room, op); }
    case Account(op) => AccountStops(db, op);
  }

  ghost function StopOpsOf(db: Db, reqs: seq<Request>): seq<S.Op>
    decreases |reqs|
  {
    if reqs == [] then [] else [StopOpOf(db, reqs[0])] + StopOpsOf(Handle(db, reqs[0]).db, reqs[1..])
  }

  lemma {:induction false} RunStops(db: Db, reqs: seq<Request>)
    ensures HandleAll(db, reqs).stops == S.Run(db.stops, StopOpsOf(db, reqs))
    decreases |reqs|
  {
    if reqs != [] {
      StepStops(db, reqs[0]);
      RunStops(Handle(db, reqs[0]).db, reqs[1..]);
    }
  }

  /** After every run of requests with at most 2^31 additions that pass the checks, the
      listing of a room is the list of the plain machine, in which an addition is refused
      only for an id that is already in a list. */
  lemma StopsArePlainLists(reqs: seq<Request>, room: Id, ids: seq<Id>)
    requires S.Additions(StopOpsOf(EMPTY, reqs)) <= 0x8000_0000
    ensures var t := HandleAll(EMPTY, reqs).stops;
            var lists := S.RunPlain(map[], StopOpsOf(EMPTY, reqs));
            && S.IsRoute(t, room, S.Route(lists, room))
            && (S.IsListing(t, room, ids) <==> ids == S.Ids(S.Route(lists, room)))
  {
    S.RunIsPlain(map[], map[], StopOpsOf(EMPTY, reqs), 0);
    StopsAreLists(reqs, room, ids);
  }

  /** After every run of requests `ListStops` of a room has exactly one answer: the list
      that the run's additions, relabellings, removals and clears build. */
  lemma StopsAreLists(reqs: seq<Request>, room: Id, ids: seq<Id>)
    ensures var t := HandleAll(EMPTY, reqs).stops;
            var lists := S.RunLists(map[], map[], StopOpsOf(EMPTY, reqs));
            && S.IsRoute(t, room, S.Route(lists, room))
            && (S.IsListing(t, room, ids) <==> ids == S.Ids(S.Route(lists, room)))
  {
    var ops := StopOpsOf(EMPTY, reqs);
    RunStops(EMPTY, reqs);
    S.RunRefines(map[], map[], ops);
    S.ListingIsRoute(HandleAll(EMPTY, reqs).stops, room, S.Route(S.RunLists(map[], map[], ops), room), ids);
  }
}
