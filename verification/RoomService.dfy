/** The room service: store statements in sequence, then the hub calls. Each method's
    effect on the tables is the request function of `Tables`, its effect on the hub the
    action of `Replica`. */
module RoomService {
  import opened Types
  import opened Frames
  import T = Tables
  import TI = TableInvariants
  import RT = RoomTheorems
  import P = Pagination
  import R = Replica
  import H = HubModel
  import opened RoomStore
  import opened HubImpl

  class Service {
    const store: Store
    const hub: Hub

    constructor (store: Store, hub: Hub)
      ensures this.store == store && this.hub == hub
    {
      this.store, this.hub := store, hub;
    }

    method RequireOwner(room: Id, actor: Id) returns (ok: bool)
      ensures ok == T.RequireOwner(store.members, room, actor)
    {
      var role := store.ActiveMembership(room, actor);
      ok := role == Some(T.Owner);
    }

    method AssertMember(room: Id, user: Id) returns (ok: bool)
      ensures ok == T.ActiveMember(store.members, room, user)
    {
      var role := store.ActiveMembership(room, user);
      ok := role.Some?;
    }

    /** Draws a code and inserts, until an insert meets no collision or the attempts are
        used up. */
    method Create(owner: Id, draws: seq<T.Draw>, name: Option<string>, now: Time) returns (reply: T.Reply)
      modifies store`rooms, store`members
      ensures T.Outcome(store.Db(), reply) == T.Create(old(store.Db()), owner, T.Taken(draws), name, now)
    {
      var taken := T.Taken(draws);
      var i := 0;
      while i < |taken|
        invariant 0 <= i <= |taken| && store.Db() == old(store.Db())
        invariant T.Create(old(store.Db()), owner, taken[i..], name, now) ==
            T.Create(old(store.Db()), owner, taken, name, now)
      {
        assert taken[i..][0] == taken[i] && taken[i..][1..] == taken[i + 1..];
        if taken[i].code.None? {
          return T.Failed;
        }
        var r := store.CreateRoom(owner, taken[i].id, taken[i].code.value, name, now);
        match r {
          case Inserted => return T.Ok;
          case OtherError => return T.Failed;
          case UniqueViolation =>
        }
        i := i + 1;
      }
      reply := T.Failed;
    }

    method Join(user: Id, code: string, now: Time) returns (reply: T.Reply)
      requires hub.Valid() && TI.Inv(store.Db())
      modifies store`members, hub`sys, hub.socks
      ensures hub.Valid() && T.Outcome(store.Db(), reply) == T.Join(old(store.Db()), user, code, now)
      ensures match T.RoomByCode(old(store.Db()), code)
              case Some(room) => hub.sys == R.Tell(old(hub.sys), room, MemberJoined(user), None)
              case None => hub.sys == old(hub.sys)
    {
      var found := store.GetActiveByCode(code);
      match found {
        case None => return T.NotFound;
        case Some(room) =>
          RT.CodeNamesOneRoom(store.Db(), code, room);
          store.UpsertMember(room, user, now);
          hub.Broadcast(room, MemberJoined(user), None);
          return T.Ok;
      }
    }

    method Leave(room: Id, user: Id, now: Time) returns (reply: T.Reply)
      requires hub.Valid()
      modifies store`members, hub`sys, hub.socks
      ensures hub.Valid() && T.Outcome(store.Db(), reply) == T.Leave(old(store.Db()), room, user, now)
      ensures hub.sys == R.PerformLeaveRoom(old(hub.sys), room, user)
    {
      store.MarkLeft(room, user, now);
      hub.LeaveRoom(room, user);
      reply := T.Ok;
    }

    method Kick(room: Id, actor: Id, target: Id, now: Time) returns (reply: T.Reply)
      requires hub.Valid()
      modifies store`members, hub`sys, hub.socks
      ensures hub.Valid() && T.Outcome(store.Db(), reply) == T.Kick(old(store.Db()), room, actor, target, now)
      ensures hub.sys == if reply == T.Ok then R.PerformKick(old(hub.sys), room, target, actor) else old(hub.sys)
    {
      var owns := RequireOwner(room, actor);
      if !owns {
        return T.Forbidden;
      }
      if actor == target {
        return T.BadRequest;
      }
      var found := store.Kick(room, target, now);
      if !found {
        return T.NotFound;
      }
      hub.KickConnection(room, target, actor);
      reply := T.Ok;
    }

    method End(room: Id, actor: Id, now: Time) returns (reply: T.Reply)
      requires hub.Valid()
      modifies store`rooms, hub`sys, hub.socks
      ensures hub.Valid() && T.Outcome(store.Db(), reply) == T.EndRoom(old(store.Db()), room, actor, now)
      ensures hub.sys == if reply == T.Ok then R.PerformEnd(old(hub.sys), room) else old(hub.sys)
    {
      var owns := RequireOwner(room, actor);
      if !owns {
        return T.Forbidden;
      }
      var found := store.UpdateRoom(room, (row: T.RoomRow) => row.(endedAt := Some(now)));
      if !found {
        return T.NotFound;
      }
      hub.BroadcastRoomEnded(room);
      reply := T.Ok;
    }

    method KeepDestination(room: Id, actor: Id, now: Time)
      modifies store`markers
      ensures store.Db() == T.KeepDestination(old(store.Db()), room, actor, now)
    {
      if room in store.rooms && T.ReadDestination(store.rooms[room]).Some? {
        var d := T.ReadDestination(store.rooms[room]).value;
        store.UpsertPersonalMarker(room, actor, d.lat, d.lng, d.name, now);
      }
    }

    /** The outgoing owner's destination becomes their marker even when the transfer itself
        then finds the room ended. */
    method TransferOwnership(room: Id, actor: Id, target: Id, now: Time) returns (reply: T.Reply)
      requires hub.Valid()
      modifies store`rooms, store`members, store`markers, hub`sys, hub.socks
      ensures hub.Valid() && T.Outcome(store.Db(), reply) == T.Transfer(old(store.Db()), room, actor, target, now)
      ensures hub.sys == if reply == T.Ok then R.Tell(old(hub.sys), room, Info("owner_changed"), None) else old(hub.sys)
    {
      var owns := RequireOwner(room, actor);
      if !owns {
        return T.Forbidden;
      }
      if actor == target {
        return T.BadRequest;
      }
      var member := AssertMember(room, target);
      if !member {
        return T.Forbidden;
      }
      KeepDestination(room, actor, now);
      var found := store.TransferOwnership(room, actor, target);
      if !found {
        return T.NotFound;
      }
      hub.Broadcast(room, Info("owner_changed"), None);
      reply := T.Ok;
    }

    /** A change to what a room shows, then its broadcast. */
    method Edit(room: Id, actor: Id, op: T.RouteOp) returns (reply: T.Reply)
      requires hub.Valid()
      modifies store`rooms, store`stops, store`markers, store`messages, hub`sys, hub.socks
      ensures hub.Valid() && T.Outcome(store.Db(), reply) == T.ServeRoute(old(store.Db()), actor, room, op)
      ensures hub.sys == if reply == T.Ok then Announced(old(hub.sys), room, actor, op) else old(hub.sys)
    {
      reply := Write(room, actor, op);
      if reply == T.Ok {
        Announce(room, actor, op);
      }
    }

    method Announce(room: Id, actor: Id, op: T.RouteOp)
      requires hub.Valid()
      modifies hub`sys, hub.socks
      ensures hub.Valid() && hub.sys == Announced(old(hub.sys), room, actor, op)
    {
      match op {
        case SetMarkerOp(_, _, _, _) =>
        case ClearMarkerOp =>
        case PostOp(_, _, _) => hub.Broadcast(room, Info("chat"), Some(actor));
        case RenameOp(_) => hub.Broadcast(room, Info("room_renamed"), None);
        case SetDestOp(_, _, _, _, _) => hub.Broadcast(room, Info("destination"), None);
        case EditDestOp(_, _) => hub.Broadcast(room, Info("destination"), None);
        case ClearDestOp =>
          hub.Broadcast(room, Info("destination"), None);
          hub.Broadcast(room, Info("stops"), None);
        case _ => hub.Broadcast(room, Info("stops"), None);
      }
    }

    method Write(room: Id, actor: Id, op: T.RouteOp) returns (reply: T.Reply)
      modifies store`rooms, store`stops, store`markers, store`messages
      ensures T.Outcome(store.Db(), reply) == T.ServeRoute(old(store.Db()), actor, room, op)
    {
      match op {
        case SetMarkerOp(lat, lng, title, now) => reply := SetPersonalMarker(room, actor, lat, lng, title, now);
        case ClearMarkerOp => reply := ClearPersonalMarker(room, actor);
        case PostOp(id, body, now) => reply := PostMessage(room, actor, id, body, now);
        case RenameOp(name) => reply := Rename(room, actor, name);
        case SetDestOp(lat, lng, name, notes, now) => reply := SetDestination(room, actor, lat, lng, name, notes, now);
        case EditDestOp(name, notes) => reply := UpdateDestinationMeta(room, actor, name, notes);
        case ClearDestOp => reply := ClearDestination(room, actor);
        case AddStopOp(id, lat, lng, title, now) => reply := AddStop(room, actor, id, lat, lng, title, now);
        case LabelStopOp(id, title) => reply := UpdateStopLabel(room, actor, id, title);
        case RemoveStopOp(id) => reply := RemoveStop(room, actor, id);
        case ClearStopsOp => reply := ClearStops(room, actor);
      }
    }

    method Rename(room: Id, actor: Id, name: string) returns (reply: T.Reply)
      modifies store`rooms
      ensures T.Outcome(store.Db(), reply) == T.Rename(old(store.Db()), room, actor, name)
    {
      var owns := RequireOwner(room, actor);
      if !owns {
        return T.Forbidden;
      }
      if name == "" || |name| > T.MAX_ROOM_NAME {
        return T.BadRequest;
      }
      var found := store.UpdateRoom(room, (row: T.RoomRow) => row.(name := Some(name)));
      reply := if found then T.Ok else T.NotFound;
    }

    method SetDestination(room: Id, actor: Id, lat: real, lng: real, name: Option<string>, notes: Option<string>,
        now: Time)
      returns (reply: T.Reply)
      modifies store`rooms
      ensures T.Outcome(store.Db(), reply) == T.SetDestination(old(store.Db()), room, actor, lat, lng, name, notes, now)
    {
      var owns := RequireOwner(room, actor);
      if !owns {
        return T.Forbidden;
      }
      if lat < -90.0 || lat > 90.0 || lng < -180.0 || lng > 180.0 {
        return T.BadRequest;
      }
      var found := store.UpdateRoom(room, (row: T.RoomRow) => row.(
        destLat := Some(lat), destLng := Some(lng), destName := name, destNotes := notes,
        destSetAt := Some(now), destSetBy := Some(actor)));
      reply := if found then T.Ok else T.NotFound;
    }

    method UpdateDestinationMeta(room: Id, actor: Id, name: Option<string>, notes: Option<string>)
        returns (reply: T.Reply)
      modifies store`rooms
      ensures T.Outcome(store.Db(), reply) == T.EditDestination(old(store.Db()), room, actor, name, notes)
    {
      var owns := RequireOwner(room, actor);
      if !owns {
        return T.Forbidden;
      }
      var found := store.UpdateDestinationMeta(room, name, notes);
      reply := if found then T.Ok else T.NotFound;
    }

    method ClearDestination(room: Id, actor: Id) returns (reply: T.Reply)
      modifies store`rooms, store`stops
      ensures T.Outcome(store.Db(), reply) == T.ClearDestination(old(store.Db()), room, actor)
    {
      var owns := RequireOwner(room, actor);
      if !owns {
        return T.Forbidden;
      }
      var found := store.UpdateRoom(room, (row: T.RoomRow) => row.(
        destLat := None, destLng := None, destSetAt := None, destSetBy := None));
      if !found {
        return T.NotFound;
      }
      store.ClearStops(room);
      reply := T.Ok;
    }

    method SetPersonalMarker(room: Id, user: Id, lat: real, lng: real, title: Option<string>, now: Time)
        returns (reply: T.Reply)
      modifies store`markers
      ensures T.Outcome(store.Db(), reply) == T.SetMarker(old(store.Db()), room, user, lat, lng, title, now)
    {
      var member := AssertMember(room, user);
      if !member {
        return T.Forbidden;
      }
      if lat < -90.0 || lat > 90.0 || lng < -180.0 || lng > 180.0 {
        return T.BadRequest;
      }
      store.UpsertPersonalMarker(room, user, lat, lng, title, now);
      reply := T.Ok;
    }

    method ClearPersonalMarker(room: Id, user: Id) returns (reply: T.Reply)
      modifies store`markers
      ensures T.Outcome(store.Db(), reply) == T.ClearMarker(old(store.Db()), room, user)
    {
      var member := AssertMember(room, user);
      if !member {
        return T.Forbidden;
      }
      store.markers := store.markers - {(room, user)};
      reply := T.Ok;
    }

    method AddStop(room: Id, actor: Id, id: Id, lat: real, lng: real, title: Option<string>, now: Time)
        returns (reply: T.Reply)
      modifies store`stops
      ensures T.Outcome(store.Db(), reply) == T.AddStop(old(store.Db()), room, actor, id, lat, lng, title, now)
    {
      var owns := RequireOwner(room, actor);
      if !owns {
        return T.Forbidden;
      }
      if lat < -90.0 || lat > 90.0 || lng < -180.0 || lng > 180.0 {
        return T.BadRequest;
      }
      var ok := store.AddStop(room, id, lat, lng, title, actor, now);
      reply := if ok then T.Ok else T.Failed;
    }

    method UpdateStopLabel(room: Id, actor: Id, id: Id, title: Option<string>) returns (reply: T.Reply)
      modifies store`stops
      ensures T.Outcome(store.Db(), reply) == T.LabelStop(old(store.Db()), room, actor, id, title)
    {
      var owns := RequireOwner(room, actor);
      if !owns {
        return T.Forbidden;
      }
      var found := store.UpdateStopLabel(room, id, title);
      reply := if found then T.Ok else T.NotFound;
    }

    method RemoveStop(room: Id, actor: Id, id: Id) returns (reply: T.Reply)
      modifies store`stops
      ensures T.Outcome(store.Db(), reply) == T.RemoveStop(old(store.Db()), room, actor, id)
    {
      var owns := RequireOwner(room, actor);
      if !owns {
        return T.Forbidden;
      }
      var found := store.RemoveStop(room, id);
      reply := if found then T.Ok else T.NotFound;
    }

    method ClearStops(room: Id, actor: Id) returns (reply: T.Reply)
      modifies store`stops
      ensures T.Outcome(store.Db(), reply) == T.ClearStops(old(store.Db()), room, actor)
    {
      var owns := RequireOwner(room, actor);
      if !owns {
        return T.Forbidden;
      }
      store.ClearStops(room);
      reply := T.Ok;
    }

    method PostMessage(room: Id, user: Id, id: Id, body: string, now: Time) returns (reply: T.Reply)
      modifies store`messages
      ensures T.Outcome(store.Db(), reply) == T.PostMessage(old(store.Db()), room, user, id, body, now)
    {
      var member := AssertMember(room, user);
      if !member {
        return T.Forbidden;
      }
      if body == "" || |body| > T.MAX_MESSAGE {
        return T.BadRequest;
      }
      var ok := store.CreateMessage(room, user, id, body, now);
      reply := if ok then T.Ok else T.Failed;
    }

    /** A page of the history, for an active member; the limit is brought into 1..100. */
    method ListMessages(room: Id, user: Id, before: Option<Id>, limit: int) returns (page: Option<seq<Id>>)
      ensures page.Some? == T.ActiveMember(store.members, room, user)
      ensures page.Some? ==> P.IsNewestPage(store.messages, room, before, P.PageSize(limit), page.value)
    {
      var member := AssertMember(room, user);
      if !member {
        return None;
      }
      var lines := store.ListMessages(room, before, P.PageSize(limit));
      page := Some(lines);
    }
  }

  /** What the hub does after a successful edit. */
  function Announced(sys: H.Sys, room: Id, actor: Id, op: T.RouteOp): H.Sys {
    match op
    case RenameOp(_) => R.Tell(sys, room, Info("room_renamed"), None)
    case SetDestOp(_, _, _, _, _) => R.Tell(sys, room, Info("destination"), None)
    case EditDestOp(_, _) => R.Tell(sys, room, Info("destination"), None)
    case ClearDestOp => R.Tell(R.Tell(sys, room, Info("destination"), None), room, Info("stops"), None)
    case PostOp(_, _, _) => R.Tell(sys, room, Info("chat"), Some(actor))
    case SetMarkerOp(_, _, _, _) => sys
    case ClearMarkerOp => sys
    case _ => R.Tell(sys, room, Info("stops"), None)
  }
}
