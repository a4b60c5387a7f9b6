/** What the hub's actions say, and to whom: the effect of each frame a client sends and of
    each hub call of the room handlers, socket by socket. */
module Announcements {
  import opened Types
  import opened Frames
  import H = HubModel
  import R = Replica
  import C = ClientModel

  /** A frame read from a socket. `Malformed` is one that does not parse; a location or
      an emergency whose payload does not parse carries `None`. */
  datatype ClientMessage =
    | Malformed
    | PingMessage
    | LocationMessage(loc: Option<Location>)
    | EmergencyMessage(active: Option<bool>)
    | UnknownMessage

  /** What the read loop does with a frame, as an action. */
  function ActionOf(s: nat, msg: ClientMessage): R.Action {
    match msg
    case Malformed => R.Reply(s, Info("error"))
    case PingMessage => R.Reply(s, Info("pong"))
    case LocationMessage(Some(loc)) => R.ReceiveLocation(s, loc)
    case EmergencyMessage(Some(active)) => R.ReceiveEmergency(s, active)
    case _ => R.Reply(s, Info("error"))
  }

  // --- who is told ------------------------------------------------------------------------------

  /** The hub holds this socket for its user in the room. */
  predicate HeldIn(sys: H.Sys, room: Id, t: nat) {
    && t < |sys.socks| && sys.socks[t].client.room == room && room in sys.rooms
    && sys.socks[t].client.user in sys.rooms[room].clients
    && sys.rooms[room].clients[sys.socks[t].client.user] == t
  }

  ghost predicate SockTook(k: H.Sock, k': H.Sock, f: Frame) {
    k'.life == k.life && C.Took(k.client, k'.client, f)
  }

  /** Every socket held in the room, but the excluded user's, takes the frame; no other
      socket changes. */
  ghost predicate Said(sys: H.Sys, sys': H.Sys, room: Id, f: Frame, exclude: Option<Id>) {
    && |sys'.socks| == |sys.socks|
    && (forall t :: 0 <= t < |sys.socks| ==>
          if HeldIn(sys, room, t) && exclude != Some(sys.socks[t].client.user)
          then SockTook(sys.socks[t], sys'.socks[t], f)
          else sys'.socks[t] == sys.socks[t])
  }

  /** This socket takes the frame; nothing else changes. */
  ghost predicate Answered(sys: H.Sys, sys': H.Sys, s: nat, f: Frame)
    requires s < |sys.socks|
  {
    && sys'.rooms == sys.rooms && sys'.trans == sys.trans && |sys'.socks| == |sys.socks|
    && SockTook(sys.socks[s], sys'.socks[s], f)
    && (forall t :: 0 <= t < |sys.socks| && t != s ==> sys'.socks[t] == sys.socks[t])
  }

  /** At most this room changes, and in it neither the clients nor the rest named. */
  ghost predicate OnlyRoom(sys: H.Sys, sys': H.Sys, room: Id) {
    && sys'.trans == sys.trans && room in sys'.rooms
    && sys'.rooms[room].clients == H.RoomFor(sys.rooms, room).clients
    && (forall r :: r != room ==> (r in sys'.rooms <==> r in sys.rooms))
    && (forall r :: r != room && r in sys.rooms && r in sys'.rooms ==> sys'.rooms[r] == sys.rooms[r])
  }

  lemma TellSays(sys: H.Sys, room: Id, f: Frame, exclude: Option<Id>)
    ensures var sys' := R.Tell(sys, room, f, exclude);
            Said(sys, sys', room, f, exclude) && sys'.rooms == sys.rooms && sys'.trans == sys.trans
  {
    var sys' := R.Tell(sys, room, f, exclude);
    forall t: nat | t < |sys.socks|
      ensures H.Target(sys, room, exclude, t) <==> HeldIn(sys, room, t) && exclude != Some(sys.socks[t].client.user)
      ensures H.Target(sys, room, exclude, t) ==> SockTook(sys.socks[t], sys'.socks[t], f)
    {
      C.EnqueueTakes(sys.socks[t].client, f);
    }
  }

  /** Telling a room after a change that moved no client is telling it before. */
  lemma SaidAfter(sys: H.Sys, mid: H.Sys, sys': H.Sys, room: Id, f: Frame, exclude: Option<Id>)
    requires mid.socks == sys.socks && OnlyRoom(sys, mid, room) && Said(mid, sys', room, f, exclude)
    ensures Said(sys, sys', room, f, exclude)
  {
    forall t: nat | t < |sys.socks| ensures HeldIn(mid, room, t) == HeldIn(sys, room, t) {
    }
  }

  // --- frames of a client -------------------------------------------------------------------------

  /** The user's emergency is as they say, nobody else's changes, and a change is told to the
      whole room. */
  ghost predicate EmergencyTold(sys: H.Sys, sys': H.Sys, room: Id, user: Id, active: bool) {
    var was := H.RoomFor(sys.rooms, room);
    && OnlyRoom(sys, sys', room) && sys'.rooms[room].locations == was.locations
    && (user in sys'.rooms[room].emergencies <==> active)
    && (forall u :: u != user ==> (u in sys'.rooms[room].emergencies <==> u in was.emergencies))
    && (if (user in was.emergencies) != active then Said(sys, sys', room, Emergency(user, active), None)
        else sys'.socks == sys.socks)
  }

  /** The user's location is the one sent, nobody else's changes, and the others are told. */
  ghost predicate LocationTold(sys: H.Sys, sys': H.Sys, room: Id, user: Id, loc: Location) {
    var was := H.RoomFor(sys.rooms, room);
    && OnlyRoom(sys, sys', room) && sys'.rooms[room].emergencies == was.emergencies
    && user in sys'.rooms[room].locations && sys'.rooms[room].locations[user] == loc
    && (forall u :: u != user ==> (u in sys'.rooms[room].locations <==> u in was.locations))
    && (forall u :: u != user && u in was.locations && u in sys'.rooms[room].locations ==>
          sys'.rooms[room].locations[u] == was.locations[u])
    && Said(sys, sys', room, LocationEvent(user, loc), Some(user))
  }

  /** What a frame of a live socket does. */
  ghost predicate Handled(sys: H.Sys, sys': H.Sys, s: nat, msg: ClientMessage)
    requires s < |sys.socks|
  {
    var room, user := sys.socks[s].client.room, sys.socks[s].client.user;
    match msg
    case EmergencyMessage(Some(active)) => EmergencyTold(sys, sys', room, user, active)
    case LocationMessage(Some(loc)) => LocationTold(sys, sys', room, user, loc)
    case PingMessage => Answered(sys, sys', s, Info("pong"))
    case _ => Answered(sys, sys', s, Info("error"))
  }

  lemma EmergencyHandled(sys: H.Sys, s: nat, active: bool)
    requires H.IsLive(sys, s)
    ensures EmergencyTold(sys, R.PerformEmergency(sys, s, active),
                          sys.socks[s].client.room, sys.socks[s].client.user, active)
  {
    var room, user := sys.socks[s].client.room, sys.socks[s].client.user;
    var mid := H.SetEmergency(sys, s, active);
    assert OnlyRoom(sys, mid, room);
    TellSays(mid, room, Emergency(user, active), None);
    if H.ChangesEmergency(sys, s, active) {
      SaidAfter(sys, mid, R.Tell(mid, room, Emergency(user, active), None), room, Emergency(user, active), None);
    }
  }

  lemma LocationHandled(sys: H.Sys, s: nat, loc: Location)
    requires H.IsLive(sys, s)
    ensures LocationTold(sys, R.PerformLocation(sys, s, loc), sys.socks[s].client.room, sys.socks[s].client.user, loc)
  {
    var room, user := sys.socks[s].client.room, sys.socks[s].client.user;
    var mid, f := H.RecordLocation(sys, s, loc), LocationEvent(user, loc);
    assert OnlyRoom(sys, mid, room);
    TellSays(mid, room, f, Some(user));
    SaidAfter(sys, mid, R.Tell(mid, room, f, Some(user)), room, f, Some(user));
  }

  lemma ReplyAnswers(sys: H.Sys, s: nat, f: Frame)
    requires s < |sys.socks|
    ensures Answered(sys, R.OnSock(sys, s, C.Enqueue(f)), s, f)
  {
    C.EnqueueTakes(sys.socks[s].client, f);
  }

  /** The action of a frame does that. */
  lemma MessageHandled(sys: H.Sys, s: nat, msg: ClientMessage)
    requires H.IsLive(sys, s)
    ensures Handled(sys, R.Perform(sys, ActionOf(s, msg)), s, msg)
  {
    match msg
    case EmergencyMessage(Some(active)) => EmergencyHandled(sys, s, active);
    case LocationMessage(Some(loc)) => LocationHandled(sys, s, loc);
    case PingMessage => ReplyAnswers(sys, s, Info("pong"));
    case _ => ReplyAnswers(sys, s, Info("error"));
  }

  // --- hub calls ------------------------------------------------------------------------------------

  /** Closed for the reason given, unless it was closed before. */
  ghost predicate SockClosed(k: H.Sock, k': H.Sock, why: string) {
    k'.life == k.life && k'.client == C.CloseClient(k.client, why)
    && k'.client.closed && (!k.client.closed ==> k'.client.reason == why)
    && k'.client.queue == k.client.queue && k'.client.accepted == k.client.accepted
  }

  /** A leave tells everybody in the room, the leaver included, and then closes the leaver. */
  lemma LeaveSays(sys: H.Sys, room: Id, user: Id)
    ensures var told := R.Tell(sys, room, MemberLeft(user), None);
            var sys' := R.PerformLeaveRoom(sys, room, user);
            && Said(sys, told, room, MemberLeft(user), None)
            && sys'.rooms == sys.rooms && sys'.trans == sys.trans && |sys'.socks| == |sys.socks|
            && (forall t :: 0 <= t < |sys.socks| ==>
                  if H.Registered(sys, room, user) && sys.rooms[room].clients[user] == t
                  then SockClosed(told.socks[t], sys'.socks[t], "left room")
                  else sys'.socks[t] == told.socks[t])
  {
    TellSays(sys, room, MemberLeft(user), None);
  }

  /** A kick tells everybody else in the room; the target takes the same frame and is closed. */
  lemma KickSays(sys: H.Sys, room: Id, user: Id, actor: Id)
    ensures var f := Kicked(user, actor);
            var told, sys' := R.Tell(sys, room, f, Some(user)), R.PerformKick(sys, room, user, actor);
            && Said(sys, told, room, f, Some(user))
            && sys'.rooms == sys.rooms && sys'.trans == sys.trans && |sys'.socks| == |sys.socks|
            && (forall t :: 0 <= t < |sys.socks| ==>
                  if H.Registered(sys, room, user) && sys.rooms[room].clients[user] == t
                  then exists c :: C.Took(told.socks[t].client, c, f)
                                   && SockClosed(told.socks[t].(client := c), sys'.socks[t], "kicked")
                  else sys'.socks[t] == told.socks[t])
  {
    var f := Kicked(user, actor);
    TellSays(sys, room, f, Some(user));
    if H.Registered(sys, room, user) && sys.rooms[room].clients[user] < |sys.socks| {
      C.EnqueueTakes(R.Tell(sys, room, f, Some(user)).socks[sys.rooms[room].clients[user]].client, f);
    }
  }

  /** The end of a room tells everybody in it and closes them. */
  lemma EndSays(sys: H.Sys, room: Id)
    ensures var told, sys' := R.Tell(sys, room, RoomEnded, None), R.PerformEnd(sys, room);
            && Said(sys, told, room, RoomEnded, None)
            && sys'.rooms == sys.rooms && sys'.trans == sys.trans && |sys'.socks| == |sys.socks|
            && (forall t :: 0 <= t < |sys.socks| ==>
                  if HeldIn(sys, room, t) then SockClosed(told.socks[t], sys'.socks[t], "room ended")
                  else sys'.socks[t] == sys.socks[t])
  {
    var told := R.Tell(sys, room, RoomEnded, None);
    TellSays(sys, room, RoomEnded, None);
    forall t: nat | t < |sys.socks|
      ensures H.Target(told, room, None, t) == HeldIn(sys, room, t)
    {
      C.EnqueueTakes(sys.socks[t].client, RoomEnded);
    }
  }

  /** A join closes the socket it replaces and no other, and the newcomer starts open and
      empty. */
  lemma JoinReplaces(sys: H.Sys, room: Id, user: Id)
    ensures var sys' := H.Join(sys, room, user);
            && |sys'.socks| == |sys.socks| + 1
            && (forall t :: 0 <= t < |sys.socks| ==>
                  if H.Registered(sys, room, user) && sys.rooms[room].clients[user] == t
                  then SockClosed(sys.socks[t], sys'.socks[t], "replaced by new connection")
                  else sys'.socks[t] == sys.socks[t])
            && var c := sys'.socks[|sys.socks|].client;
            && c.room == room && c.user == user && !c.closed
            && c.queue == [] && c.delivered == [] && c.inFlight == [] && c.addressed == []
  {
  }

  /** A connect joins, sends the newcomer the snapshot of the room it has joined, if that
      could be read, and tells everybody else about a user who was not there before. */
  lemma ConnectSays(sys: H.Sys, room: Id, user: Id, ok: bool)
    ensures var joined, n := H.Join(sys, room, user), |sys.socks|;
            var shown, sys' := R.Shown(sys, room, user, ok), R.PerformConnect(sys, room, user, ok);
            && room in joined.rooms && n < |joined.socks|
            && var rs := joined.rooms[room];
            && (if ok then Answered(joined, shown, n, Snapshot(rs.clients.Keys, rs.emergencies, rs.locations))
                else shown == joined)
            && (if H.Registered(sys, room, user) then sys' == shown
                else Said(shown, sys', room, MemberPresent(user), Some(user)) && sys'.rooms == shown.rooms)
  {
    var joined, n := H.Join(sys, room, user), |sys.socks|;
    var rs := joined.rooms[room];
    C.EnqueueTakes(joined.socks[n].client, Snapshot(rs.clients.Keys, rs.emergencies, rs.locations));
    assert joined.rooms[room := rs] == joined.rooms;
    TellSays(R.Shown(sys, room, user, ok), room, MemberPresent(user), Some(user));
  }

  /** The end of the read loop closes the socket and leaves; if that made the user absent, an
      emergency of theirs is called off for everybody, and then everybody is told that they
      are absent. */
  lemma DisconnectSays(sys: H.Sys, s: nat)
    requires H.IsLive(sys, s)
    ensures var room, user := sys.socks[s].client.room, sys.socks[s].client.user;
            var closed := R.OnSock(sys, s, C.Close("read loop ended"));
            var left, sys' := R.Leave(closed, s), R.PerformDisconnect(sys, s);
            && |closed.socks| == |sys.socks| && SockClosed(sys.socks[s], closed.socks[s], "read loop ended")
            && (if H.Current(sys, s) then
                  exists calmed ::
                    && (if user in sys.rooms[room].emergencies
                        then Said(left, calmed, room, Emergency(user, false), None)
                        else calmed == left)
                    && calmed.rooms == left.rooms && Said(calmed, sys', room, MemberAbsent(user), Some(user))
                else sys' == left)
  {
    var room, user := sys.socks[s].client.room, sys.socks[s].client.user;
    var left := R.Leave(R.OnSock(sys, s, C.Close("read loop ended")), s);
    var calmed := if H.ClearsEmergency(sys, s) then R.Tell(left, room, Emergency(user, false), None) else left;
    TellSays(left, room, Emergency(user, false), None);
    TellSays(calmed, room, MemberAbsent(user), Some(user));
  }
}
