/** The hub and the websocket handler as objects. The ghost field `sys` is the state of
    `HubModel` they denote, tied to the objects by `Valid`; the handler's and the
    broadcaster's methods perform the actions of `Replica`, so every theorem about
    action runs is about these methods. */
module HubImpl {
  import opened Types
  import opened Frames
  import opened RealtimeImpl
  import opened Announcements
  import C = ClientModel
  import H = HubModel
  import R = Replica

  /** The record the hub keeps for a room. */
  datatype RoomState = RoomState(clients: map<Id, Client>, locations: map<Id, Location>, emergencies: set<Id>)

  const NEW_ROOM_STATE: RoomState := RoomState(map[], map[], {})

  /** The record holds what the model's room holds, with clients for their numbers. */
  ghost predicate Denotes(rs: RoomState, id: Id, room: H.Room, socks: seq<Client>) {
    && rs.clients.Keys == room.clients.Keys
    && rs.locations == room.locations
    && rs.emergencies == room.emergencies
    && forall u :: u in rs.clients ==> IsEntry(rs.clients[u], u, id, room.clients[u], socks)
  }

  ghost predicate IsEntry(c: Client, user: Id, room: Id, s: nat, socks: seq<Client>) {
    c.user == user && c.roomID == room && s < |socks| && socks[s] == c
  }

  ghost predicate AllDenote(rooms: map<Id, RoomState>, model: map<Id, H.Room>, socks: seq<Client>) {
    && rooms.Keys == model.Keys
    && forall r :: r in rooms ==> Denotes(rooms[r], r, model[r], socks)
  }

  function RoomFor(rooms: map<Id, RoomState>, id: Id): RoomState {
    if id in rooms then rooms[id] else NEW_ROOM_STATE
  }

  /** Replacing one room's record by one that denotes the new model room. */
  lemma UpdateDenotes(rooms: map<Id, RoomState>, model: map<Id, H.Room>, socks: seq<Client>,
                      more: seq<Client>, id: Id, rs: RoomState, room: H.Room)
    requires AllDenote(rooms, model, socks) && Denotes(rs, id, room, socks + more)
    ensures AllDenote(rooms[id := rs], model[id := room], socks + more)
  {
    forall r | r in rooms && r != id ensures Denotes(rooms[r], r, model[r], socks + more) {
      assert Denotes(rooms[r], r, model[r], socks);
    }
  }

  lemma JoinDenotes(rooms: map<Id, RoomState>, sys: H.Sys, socks: seq<Client>, roomID: Id, c: Client)
    requires AllDenote(rooms, sys.rooms, socks) && |sys.socks| == |socks| && c.roomID == roomID
    ensures var rs := RoomFor(rooms, roomID);
            AllDenote(rooms[roomID := rs.(clients := rs.clients[c.user := c])], H.Join(sys, roomID, c.user).rooms,
                socks + [c])
  {
    var rs := RoomFor(rooms, roomID);
    var room := H.RoomFor(sys.rooms, roomID);
    assert Denotes(rs, roomID, room, socks);
    var rs' := rs.(clients := rs.clients[c.user := c]);
    var room' := room.(clients := room.clients[c.user := |sys.socks|]);
    forall u | u in rs'.clients ensures IsEntry(rs'.clients[u], u, roomID, room'.clients[u], socks + [c]) {
      assert u != c.user ==> IsEntry(rs.clients[u], u, roomID, room.clients[u], socks);
    }
    UpdateDenotes(rooms, sys.rooms, socks, [c], roomID, rs', room');
  }

  /** The clients a fan-out addresses, each once. */
  method Targets(rs: RoomState, exclude: Option<Id>) returns (targets: seq<Client>)
    requires forall u :: u in rs.clients ==> rs.clients[u].user == u
    ensures forall c :: c in targets <==> c.user in rs.clients && rs.clients[c.user] == c && exclude != Some(c.user)
    ensures Distinct(targets)
  {
    targets := [];
    var todo := rs.clients.Keys;
    while todo != {}
      invariant todo <= rs.clients.Keys
      invariant forall c :: c in targets <==>
                  c.user in rs.clients && rs.clients[c.user] == c && c.user !in todo && exclude != Some(c.user)
      invariant Distinct(targets)
      decreases |todo|
    {
      var uid :| uid in todo;
      todo := todo - {uid};
      if exclude != Some(uid) {
        targets := targets + [rs.clients[uid]];
      }
    }
  }

  ghost predicate Distinct(cs: seq<Client>) {
    forall i, j :: 0 <= i < j < |cs| ==> cs[i] != cs[j]
  }

  method EnqueueAll(cs: seq<Client>, f: Frame)
    requires Distinct(cs) && forall c :: c in cs ==> c.Valid()
    modifies cs
    ensures forall c :: c in cs ==> c.Valid() && c.state == C.EnqueueFrame(old(c.state), f)
  {
    for i := 0 to |cs|
      invariant forall j :: 0 <= j < i ==> cs[j].Valid() && cs[j].state == C.EnqueueFrame(old(cs[j].state), f)
      invariant forall j :: i <= j < |cs| ==> cs[j].Valid() && cs[j].state == old(cs[j].state)
    {
      cs[i].Enqueue(f);
    }
  }

  method CloseAll(cs: seq<Client>, why: string)
    requires Distinct(cs) && forall c :: c in cs ==> c.Valid()
    modifies cs
    ensures forall c :: c in cs ==> c.Valid() && c.state == C.CloseClient(old(c.state), why)
  {
    for i := 0 to |cs|
      invariant forall j :: 0 <= j < i ==> cs[j].Valid() && cs[j].state == C.CloseClient(old(cs[j].state), why)
      invariant forall j :: i <= j < |cs| ==> cs[j].Valid() && cs[j].state == old(cs[j].state)
    {
      cs[i].Close(why);
    }
  }

  class Hub {
    var rooms: map<Id, RoomState>

    // every socket that ever joined, and the model state the objects denote
    ghost var socks: seq<Client>
    ghost var sys: H.Sys

    ghost predicate SocksValid()
      reads this, socks
    {
      && |sys.socks| == |socks|
      && (forall i :: 0 <= i < |socks| ==> socks[i].id == i)
      && (forall i :: 0 <= i < |socks| ==> socks[i].Valid() && socks[i].state == sys.socks[i].client)
    }

    ghost predicate Valid()
      reads this, socks
    {
      SocksValid() && AllDenote(rooms, sys.rooms, socks)
    }

    constructor ()
      ensures Valid() && sys == H.INIT && socks == []
    {
      rooms, socks, sys := map[], [], H.INIT;
    }

    /** Closes one socket. */
    method CloseOne(c: Client, why: string)
      requires Valid() && c in socks
      modifies this`sys, c
      ensures Valid()
      ensures sys == old(sys).(socks := H.OnClient(old(sys).socks, c.id, C.Close(why)))
    {
      c.Close(why);
      sys := sys.(socks := H.OnClient(sys.socks, c.id, C.Close(why)));
    }

    /** Queues one frame on one socket. */
    method SendTo(c: Client, f: Frame)
      requires Valid() && c in socks
      modifies this`sys, c
      ensures Valid()
      ensures sys == old(sys).(socks := H.OnClient(old(sys).socks, c.id, C.Enqueue(f)))
    {
      c.Enqueue(f);
      sys := sys.(socks := H.OnClient(sys.socks, c.id, C.Enqueue(f)));
    }

    /** Stores the rooms with the number of a fresh socket. */
    method Record(rooms': map<Id, RoomState>, c: Client, ghost sys': H.Sys)
      requires SocksValid()
      requires c.id == |socks| && c.Valid() && c.state == C.NewClient(c.user, c.roomID)
      requires sys'.socks == sys.socks + [H.Sock(C.NewClient(c.user, c.roomID), H.Live)]
      requires AllDenote(rooms', sys'.rooms, socks + [c])
      modifies this
      ensures Valid() && rooms == rooms' && socks == old(socks) + [c] && sys == sys'
    {
      rooms := rooms';
      socks := socks + [c];
      sys := sys';
    }

    /** Registers a fresh socket, closing the one it replaces. The hub and room locks are
        one critical section here. */
    method Join(roomID: Id, c: Client) returns (transitioned: bool)
      requires Valid()
      requires c !in socks && c.id == |socks| && c.Valid() && c.state == C.NewClient(c.user, roomID)
      modifies this, socks
      ensures Valid() && socks == old(socks) + [c]
      ensures sys == H.Join(old(sys), roomID, c.user)
      ensures transitioned == !H.Registered(old(sys), roomID, c.user)
    {
      ghost var was := sys;
      JoinDenotes(rooms, was, socks, roomID, c);
      var rs := RoomFor(rooms, roomID);
      transitioned := c.user !in rs.clients;
      if !transitioned {
        assert IsEntry(rs.clients[c.user], c.user, roomID, sys.rooms[roomID].clients[c.user], socks);
        CloseOne(rs.clients[c.user], "replaced by new connection");
      }
      assert H.Join(was, roomID, c.user).socks == sys.socks + [H.Sock(C.NewClient(c.user, roomID), H.Live)];
      Record(rooms[roomID := rs.(clients := rs.clients[c.user := c])], c, H.Join(was, roomID, c.user));
    }

    /** Stores rooms and the model state they denote, when no client changed. */
    method Store(rooms': map<Id, RoomState>, ghost sys': H.Sys)
      requires SocksValid() && |sys'.socks| == |sys.socks|
      requires forall i :: 0 <= i < |socks| ==> sys'.socks[i].client == sys.socks[i].client
      requires AllDenote(rooms', sys'.rooms, socks)
      modifies this`rooms, this`sys
      ensures Valid() && rooms == rooms' && sys == sys'
    {
      rooms := rooms';
      sys := sys';
    }

    /** The first half of `leave`, under the room lock. */
    method LeaveRemove(roomID: Id, c: Client) returns (transitioned: bool, clearedEmergency: bool, empty: bool)
      requires Valid() && c in socks && c.roomID == roomID && c.closed && H.IsLive(sys, c.id)
      modifies this`rooms, this`sys
      ensures Valid() && sys == H.LeaveRemove(old(sys), c.id)
      ensures transitioned == H.Current(old(sys), c.id)
      ensures clearedEmergency == H.ClearsEmergency(old(sys), c.id)
      ensures empty == (sys.socks[c.id].life == H.Sweeping)
    {
      transitioned, clearedEmergency, empty := false, false, false;
      if roomID !in rooms {
        Store(rooms, H.LeaveRemove(sys, c.id));
        return;
      }
      CurrentMatches(rooms, sys, socks, c);
      LeaveDenotes(rooms, sys, socks, c);
      var rs := rooms[roomID];
      if c.user in rs.clients && rs.clients[c.user] == c {
        assert Denotes(rs, roomID, sys.rooms[roomID], socks);
        clearedEmergency := c.user in rs.emergencies;
        rs := RoomState(rs.clients - {c.user}, rs.locations - {c.user}, rs.emergencies - {c.user});
        transitioned := true;
      }
      empty := rs.clients == map[];
      Store(rooms[roomID := rs], H.LeaveRemove(sys, c.id));
    }

    /** The second half, under the hub lock: re-check, then drop the empty room. */
    method LeaveSweep(roomID: Id, c: Client)
      requires Valid() && c in socks && c.roomID == roomID && sys.socks[c.id].life == H.Sweeping
      modifies this`rooms, this`sys
      ensures Valid() && sys == H.LeaveSweep(old(sys), c.id)
    {
      if roomID in rooms {
        EmptyMatches(rooms[roomID], roomID, sys.rooms[roomID], socks);
      }
      if roomID in rooms && rooms[roomID].clients == map[] {
        Store(rooms - {roomID}, H.LeaveSweep(sys, c.id));
      } else {
        Store(rooms, H.LeaveSweep(sys, c.id));
      }
    }

    /** Both halves of `leave`. */
    method Leave(roomID: Id, c: Client) returns (transitioned: bool, clearedEmergency: bool)
      requires Valid() && c in socks && c.roomID == roomID && c.closed && H.IsLive(sys, c.id)
      modifies this`rooms, this`sys
      ensures Valid() && sys == R.Leave(old(sys), c.id)
      ensures transitioned == H.Current(old(sys), c.id)
      ensures clearedEmergency == H.ClearsEmergency(old(sys), c.id)
    {
      var empty;
      transitioned, clearedEmergency, empty := LeaveRemove(roomID, c);
      if empty {
        LeaveSweep(roomID, c);
      }
    }

    /** `src` is the socket whose frame asks for it. */
    method SetEmergency(roomID: Id, userID: Id, active: bool, ghost src: Client) returns (changed: bool)
      requires Valid() && src in socks && src.roomID == roomID && src.user == userID && H.IsLive(sys, src.id)
      modifies this`rooms, this`sys
      ensures Valid() && sys == H.SetEmergency(old(sys), src.id, active)
      ensures changed == H.ChangesEmergency(old(sys), src.id, active)
    {
      var rs := RoomFor(rooms, roomID);
      var has := userID in rs.emergencies;
      ghost var model := H.RoomFor(sys.rooms, roomID);
      assert Denotes(rs, roomID, model, socks);
      if active && !has {
        rs := rs.(emergencies := rs.emergencies + {userID});
        changed := true;
      } else if !active && has {
        rs := rs.(emergencies := rs.emergencies - {userID});
        changed := true;
      } else {
        changed := false;
      }
      ghost var sys' := H.SetEmergency(sys, src.id, active);
      assert Denotes(rs, roomID, sys'.rooms[roomID], socks + []);
      UpdateDenotes(rooms, sys.rooms, socks, [], roomID, rs, sys'.rooms[roomID]);
      assert socks + [] == socks;
      Store(rooms[roomID := rs], sys');
    }

    method RecordLocation(roomID: Id, userID: Id, loc: Location, ghost src: Client)
      requires Valid() && src in socks && src.roomID == roomID && src.user == userID && H.IsLive(sys, src.id)
      modifies this`rooms, this`sys
      ensures Valid() && sys == H.RecordLocation(old(sys), src.id, loc)
    {
      var rs := RoomFor(rooms, roomID);
      ghost var model := H.RoomFor(sys.rooms, roomID);
      assert Denotes(rs, roomID, model, socks);
      rs := rs.(locations := rs.locations[userID := loc]);
      ghost var sys' := H.RecordLocation(sys, src.id, loc);
      assert Denotes(rs, roomID, sys'.rooms[roomID], socks + []);
      UpdateDenotes(rooms, sys.rooms, socks, [], roomID, rs, sys'.rooms[roomID]);
      assert socks + [] == socks;
      Store(rooms[roomID := rs], sys');
    }

    /** The live part of the snapshot; looking the room up may bring it back. */
    method Snapshot(roomID: Id) returns (f: Frame)
      requires Valid()
      modifies this`rooms, this`sys
      ensures Valid() && f == H.SnapshotOf(H.RoomFor(old(sys).rooms, roomID))
      ensures sys == old(sys).(rooms := old(sys).rooms[roomID := H.RoomFor(old(sys).rooms, roomID)])
    {
      var rs := RoomFor(rooms, roomID);
      ghost var model := H.RoomFor(sys.rooms, roomID);
      assert Denotes(rs, roomID, model, socks);
      assert socks + [] == socks;
      UpdateDenotes(rooms, sys.rooms, socks, [], roomID, rs, model);
      Store(rooms[roomID := rs], sys.(rooms := sys.rooms[roomID := model]));
      f := Frame.Snapshot(rs.clients.Keys, rs.emergencies, rs.locations);
    }

    /** The targets are the model's, as client objects. */
    ghost predicate Addresses(targets: seq<Client>, roomID: Id, exclude: Option<Id>)
      reads this
    {
      && Distinct(targets)
      && (forall j :: 0 <= j < |targets| ==> targets[j] in socks)
      && |socks| == |sys.socks|
      && (forall i :: 0 <= i < |socks| ==> (socks[i] in targets <==> H.Target(sys, roomID, exclude, i)))
    }

    method FindTargets(roomID: Id, exclude: Option<Id>) returns (targets: seq<Client>)
      requires Valid()
      ensures Addresses(targets, roomID, exclude)
    {
      targets := [];
      if roomID in rooms {
        assert Denotes(rooms[roomID], roomID, sys.rooms[roomID], socks);
        assert forall u :: u in rooms[roomID].clients ==>
                 IsEntry(rooms[roomID].clients[u], u, roomID, sys.rooms[roomID].clients[u], socks);
        targets := Targets(rooms[roomID], exclude);
        assert forall i :: 0 <= i < |socks| ==>
                 sys.socks[i].client.user == socks[i].user && sys.socks[i].client.room == socks[i].roomID;
        TargetsMatch(rooms, sys, socks, roomID, exclude, targets);
        assert forall j :: 0 <= j < |targets| ==> targets[j] in targets;
      }
    }

    method EnqueueTo(targets: seq<Client>, roomID: Id, f: Frame, exclude: Option<Id>)
      requires Valid() && Addresses(targets, roomID, exclude)
      modifies this`sys, targets
      ensures Valid() && Addresses(targets, roomID, exclude)
      ensures sys == H.Fanout(old(sys), roomID, C.Enqueue(f), exclude)
    {
      EnqueueAll(targets, f);
      ghost var was := sys;
      FanoutKeepsTargets(was, roomID, C.Enqueue(f), exclude);
      sys := H.Fanout(was, roomID, C.Enqueue(f), exclude);
      forall i | 0 <= i < |socks| ensures socks[i].Valid() && socks[i].state == sys.socks[i].client {
        assert was.socks[i].client == old(socks[i].state);
        assert socks[i] !in targets ==> unchanged(socks[i]);
      }
    }

    method CloseTo(targets: seq<Client>, roomID: Id, why: string, exclude: Option<Id>)
      requires Valid() && Addresses(targets, roomID, exclude)
      modifies this`sys, targets
      ensures Valid()
      ensures sys == H.Fanout(old(sys), roomID, C.Close(why), exclude)
    {
      CloseAll(targets, why);
      ghost var was := sys;
      sys := H.Fanout(was, roomID, C.Close(why), exclude);
      forall i | 0 <= i < |socks| ensures socks[i].Valid() && socks[i].state == sys.socks[i].client {
        assert was.socks[i].client == old(socks[i].state);
        assert socks[i] !in targets ==> unchanged(socks[i]);
      }
    }

    /** Queues a frame on every client of the room but the excluded user's. */
    method Broadcast(roomID: Id, f: Frame, exclude: Option<Id>)
      requires Valid()
      modifies this`sys, socks
      ensures Valid() && sys == H.Fanout(old(sys), roomID, C.Enqueue(f), exclude)
    {
      var targets := FindTargets(roomID, exclude);
      EnqueueTo(targets, roomID, f, exclude);
    }

    /** The client registered for a user, if any. */
    method Find(roomID: Id, userID: Id) returns (c: Option<Client>)
      requires Valid()
      ensures c.Some? == H.Registered(sys, roomID, userID)
      ensures c.Some? ==> c.value in socks && R.Entry(sys, roomID, userID) == Some(c.value.id)
    {
      if roomID in rooms && userID in rooms[roomID].clients {
        assert Denotes(rooms[roomID], roomID, sys.rooms[roomID], socks);
        assert IsEntry(rooms[roomID].clients[userID], userID, roomID, sys.rooms[roomID].clients[userID], socks);
        c := Some(rooms[roomID].clients[userID]);
      } else {
        assert roomID in rooms ==> Denotes(rooms[roomID], roomID, sys.rooms[roomID], socks);
        c := None;
      }
    }

    /** Closes the user's socket, if there is one. */
    method DisconnectUser(roomID: Id, userID: Id)
      requires Valid()
      modifies this`sys, socks
      ensures Valid()
      ensures match R.Entry(old(sys), roomID, userID)
              case Some(s) => sys == R.OnSock(old(sys), s, C.Close("left room"))
              case None => sys == old(sys)
    {
      var c := Find(roomID, userID);
      if c.Some? {
        CloseOne(c.value, "left room");
      }
    }

    /** What a REST leave does to the hub: announce it, then disconnect the user. */
    method LeaveRoom(roomID: Id, userID: Id)
      requires Valid()
      modifies this`sys, socks
      ensures Valid() && sys == R.PerformLeaveRoom(old(sys), roomID, userID)
    {
      ghost var was := sys;
      Broadcast(roomID, MemberLeft(userID), None);
      FanoutKeepsEntries(was, roomID, C.Enqueue(MemberLeft(userID)), None, userID);
      DisconnectUser(roomID, userID);
    }

    /** Queues a last frame on a socket and closes it. */
    method Expel(c: Client, f: Frame)
      requires Valid() && c in socks
      modifies this`sys, c
      ensures Valid()
      ensures sys == R.OnSock(R.OnSock(old(sys), c.id, C.Enqueue(f)), c.id, C.Close("kicked"))
    {
      SendTo(c, f);
      CloseOne(c, "kicked");
    }

    method ExpelUser(roomID: Id, userID: Id, f: Frame)
      requires Valid()
      modifies this`sys, socks
      ensures Valid()
      ensures match R.Entry(old(sys), roomID, userID)
              case Some(s) => sys == R.OnSock(R.OnSock(old(sys), s, C.Enqueue(f)), s, C.Close("kicked"))
              case None => sys == old(sys)
    {
      var c := Find(roomID, userID);
      if c.Some? {
        Expel(c.value, f);
      }
    }

    /** Tells the others, then queues the frame on the target and closes it. */
    method KickConnection(roomID: Id, userID: Id, actor: Id)
      requires Valid()
      modifies this`sys, socks
      ensures Valid() && sys == R.PerformKick(old(sys), roomID, userID, actor)
    {
      ghost var was := sys;
      Broadcast(roomID, Kicked(userID, actor), Some(userID));
      FanoutKeepsEntries(was, roomID, C.Enqueue(Kicked(userID, actor)), Some(userID), userID);
      ExpelUser(roomID, userID, Kicked(userID, actor));
    }

    /** Queues the frame on every client of the room, then closes each of them. */
    method BroadcastRoomEnded(roomID: Id)
      requires Valid()
      modifies this`sys, socks
      ensures Valid() && sys == R.PerformEnd(old(sys), roomID)
    {
      var conns := FindTargets(roomID, None);
      EnqueueTo(conns, roomID, RoomEnded, None);
      CloseTo(conns, roomID, "room ended", None);
    }
  }

  // --- the websocket handler ---------------------------------------------------------

  /** Queues the snapshot of a socket's room on it. */
  method SendSnapshot(hub: Hub, c: Client)
    requires hub.Valid() && c in hub.socks && H.IsLive(hub.sys, c.id)
    modifies hub`rooms, hub`sys, c
    ensures hub.Valid() && hub.sys == H.SendSnapshot(old(hub.sys), c.id)
  {
    var snap := hub.Snapshot(c.roomID);
    hub.SendTo(c, snap);
  }

  /** Creates the client of an accepted connection and joins it. */
  method Open(hub: Hub, roomID: Id, userID: Id) returns (c: Client, becamePresent: bool)
    requires hub.Valid()
    modifies hub, hub.socks
    ensures hub.Valid() && hub.sys == H.Join(old(hub.sys), roomID, userID) && H.IsLive(hub.sys, c.id)
    ensures fresh(c) && hub.socks == old(hub.socks) + [c]
    ensures c.id == |old(hub.sys).socks| && c.user == userID && c.roomID == roomID
    ensures becamePresent == !H.Registered(old(hub.sys), roomID, userID)
  {
    c := new Client(userID, roomID, |hub.socks|);
    becamePresent := hub.Join(roomID, c);
  }

  /** The snapshot to the newcomer, and the announcement of a new presence. */
  function Greeted(sys: H.Sys, s: nat, room: Id, user: Id, snapshotOk: bool, becamePresent: bool): H.Sys {
    var shown := if snapshotOk then H.SendSnapshot(sys, s) else sys;
    if becamePresent then R.Tell(shown, room, MemberPresent(user), Some(user)) else shown
  }

  lemma ConnectIsJoinAndGreet(sys: H.Sys, room: Id, user: Id, snapshotOk: bool)
    ensures R.PerformConnect(sys, room, user, snapshotOk) ==
            Greeted(H.Join(sys, room, user), |sys.socks|, room, user, snapshotOk, !H.Registered(sys, room, user))
  {
  }

  method Greet(hub: Hub, c: Client, snapshotOk: bool, becamePresent: bool)
    requires hub.Valid() && c in hub.socks && H.IsLive(hub.sys, c.id)
    modifies hub`rooms, hub`sys, hub.socks
    ensures hub.Valid() && hub.sys == Greeted(old(hub.sys), c.id, c.roomID, c.user, snapshotOk, becamePresent)
  {
    if snapshotOk {
      SendSnapshot(hub, c);
    }
    if becamePresent {
      hub.Broadcast(c.roomID, MemberPresent(c.user), Some(c.user));
    }
  }

  /** The handler from the accepted connection to the start of the read loop. */
  method Connect(hub: Hub, roomID: Id, userID: Id, snapshotOk: bool) returns (c: Client)
    requires hub.Valid()
    modifies hub, hub.socks
    ensures hub.Valid() && hub.sys == R.PerformConnect(old(hub.sys), roomID, userID, snapshotOk)
    ensures fresh(c) && hub.socks == old(hub.socks) + [c]
  {
    ConnectIsJoinAndGreet(hub.sys, roomID, userID, snapshotOk);
    var becamePresent;
    c, becamePresent := Open(hub, roomID, userID);
    Greet(hub, c, snapshotOk, becamePresent);
  }

  /** Tells the room that a user is gone. */
  method AnnounceAbsent(hub: Hub, roomID: Id, userID: Id, clearedEmergency: bool)
    requires hub.Valid()
    modifies hub`sys, hub.socks
    ensures hub.Valid()
    ensures var calmed := if clearedEmergency then R.Tell(old(hub.sys), roomID, Emergency(userID, false), None)
        else old(hub.sys);
            hub.sys == R.Tell(calmed, roomID, MemberAbsent(userID), Some(userID))
  {
    if clearedEmergency {
      hub.Broadcast(roomID, Emergency(userID, false), None);
    }
    hub.Broadcast(roomID, MemberAbsent(userID), Some(userID));
  }

  /** The handler from the end of the read loop on. */
  method Disconnect(hub: Hub, c: Client)
    requires hub.Valid() && c in hub.socks && H.IsLive(hub.sys, c.id)
    modifies hub`rooms, hub`sys, hub.socks
    ensures hub.Valid() && hub.sys == R.PerformDisconnect(old(hub.sys), c.id)
  {
    hub.CloseOne(c, "read loop ended");
    ghost var ended := hub.sys;
    var wasPresent, clearedEmergency := hub.Leave(c.roomID, c);
    assert H.Current(ended, c.id) == H.Current(old(hub.sys), c.id);
    if wasPresent {
      AnnounceAbsent(hub, c.roomID, c.user, clearedEmergency);
    }
  }

  method HandleLocation(hub: Hub, c: Client, loc: Location)
    requires hub.Valid() && c in hub.socks && H.IsLive(hub.sys, c.id)
    modifies hub`rooms, hub`sys, hub.socks
    ensures hub.Valid() && hub.sys == R.PerformLocation(old(hub.sys), c.id, loc)
  {
    hub.RecordLocation(c.roomID, c.user, loc, c);
    hub.Broadcast(c.roomID, LocationEvent(c.user, loc), Some(c.user));
  }

  method HandleEmergency(hub: Hub, c: Client, active: bool)
    requires hub.Valid() && c in hub.socks && H.IsLive(hub.sys, c.id)
    modifies hub`rooms, hub`sys, hub.socks
    ensures hub.Valid() && hub.sys == R.PerformEmergency(old(hub.sys), c.id, active)
  {
    var changed := hub.SetEmergency(c.roomID, c.user, active, c);
    if changed {
      hub.Broadcast(c.roomID, Emergency(c.user, active), None);
    }
  }

  /** The dispatch of the read loop. */
  method Dispatch(hub: Hub, c: Client, msg: ClientMessage)
    requires hub.Valid() && c in hub.socks && H.IsLive(hub.sys, c.id)
    modifies hub`rooms, hub`sys, hub.socks
    ensures hub.Valid() && hub.sys == R.Perform(old(hub.sys), ActionOf(c.id, msg))
  {
    match msg
    case PingMessage => hub.SendTo(c, Info("pong"));
    case LocationMessage(Some(loc)) => HandleLocation(hub, c, loc);
    case EmergencyMessage(Some(active)) => HandleEmergency(hub, c, active);
    case _ => hub.SendTo(c, Info("error"));
  }

  /** One turn of the read loop. */
  method HandleMessage(hub: Hub, c: Client, msg: ClientMessage)
    requires hub.Valid() && c in hub.socks && H.IsLive(hub.sys, c.id)
    modifies hub`rooms, hub`sys, hub.socks
    ensures hub.Valid() && hub.sys == R.Perform(old(hub.sys), ActionOf(c.id, msg))
    ensures c.id < |old(hub.sys).socks| && Handled(old(hub.sys), hub.sys, c.id, msg)
  {
    MessageHandled(hub.sys, c.id, msg);
    Dispatch(hub, c, msg);
  }

  lemma FanoutKeepsEntries(sys: H.Sys, room: Id, event: C.ClientStep, exclude: Option<Id>, user: Id)
    ensures R.Entry(H.Fanout(sys, room, event, exclude), room, user) == R.Entry(sys, room, user)
  {
  }

  /** The hub's test for the current socket is the model's. */
  lemma CurrentMatches(rooms: map<Id, RoomState>, sys: H.Sys, socks: seq<Client>, c: Client)
    requires AllDenote(rooms, sys.rooms, socks) && |sys.socks| == |socks|
    requires c.id < |socks| && socks[c.id] == c && (forall i :: 0 <= i < |socks| ==> socks[i].id == i)
    requires sys.socks[c.id].client.user == c.user && sys.socks[c.id].client.room == c.roomID
    ensures H.Current(sys, c.id) <==>
            c.roomID in rooms && c.user in rooms[c.roomID].clients && rooms[c.roomID].clients[c.user] == c
  {
    if c.roomID in rooms && c.user in rooms[c.roomID].clients {
      assert Denotes(rooms[c.roomID], c.roomID, sys.rooms[c.roomID], socks);
      assert IsEntry(rooms[c.roomID].clients[c.user], c.user, c.roomID, sys.rooms[c.roomID].clients[c.user], socks);
    }
  }

  lemma LeaveDenotes(rooms: map<Id, RoomState>, sys: H.Sys, socks: seq<Client>, c: Client)
    requires AllDenote(rooms, sys.rooms, socks) && |sys.socks| == |socks|
    requires c.roomID in rooms && c.id < |socks| && socks[c.id] == c
    requires H.IsLive(sys, c.id) && sys.socks[c.id].client.closed
    requires sys.socks[c.id].client.user == c.user && sys.socks[c.id].client.room == c.roomID
    ensures var rs := rooms[c.roomID];
            var rs' := if H.Current(sys, c.id)
                       then RoomState(rs.clients - {c.user}, rs.locations - {c.user}, rs.emergencies - {c.user})
                           else rs;
            && AllDenote(rooms[c.roomID := rs'], H.LeaveRemove(sys, c.id).rooms, socks)
            && (rs'.clients == map[] <==> H.LeaveRemove(sys, c.id).rooms[c.roomID].clients == map[])
  {
    var rs := rooms[c.roomID];
    assert Denotes(rs, c.roomID, sys.rooms[c.roomID], socks);
    var rs' := if H.Current(sys, c.id)
               then RoomState(rs.clients - {c.user}, rs.locations - {c.user}, rs.emergencies - {c.user}) else rs;
    var left := H.LeaveRemove(sys, c.id);
    assert Denotes(rs', c.roomID, left.rooms[c.roomID], socks);
    assert socks + [] == socks;
    UpdateDenotes(rooms, sys.rooms, socks, [], c.roomID, rs', left.rooms[c.roomID]);
    EmptyMatches(rs', c.roomID, left.rooms[c.roomID], socks);
  }

  lemma EmptyMatches(rs: RoomState, id: Id, room: H.Room, socks: seq<Client>)
    requires Denotes(rs, id, room, socks)
    ensures rs.clients == map[] <==> room.clients == map[]
  {
    assert rs.clients == map[] <==> rs.clients.Keys == {};
    assert room.clients == map[] <==> room.clients.Keys == {};
  }

  lemma FanoutKeepsTargets(sys: H.Sys, room: Id, event: C.ClientStep, exclude: Option<Id>)
    ensures var sys' := H.Fanout(sys, room, event, exclude);
            forall i :: 0 <= i < |sys.socks| ==> H.Target(sys', room, exclude, i) == H.Target(sys, room, exclude, i)
  {
    var sys' := H.Fanout(sys, room, event, exclude);
    forall i | 0 <= i < |sys.socks| ensures H.Target(sys', room, exclude, i) == H.Target(sys, room, exclude, i) {
      C.StepExtends(sys.socks[i].client, event);
      assert H.Current(sys', i) == H.Current(sys, i);
    }
  }

  lemma TargetsMatch(rooms: map<Id, RoomState>, sys: H.Sys, socks: seq<Client>, roomID: Id, exclude: Option<Id>,
                     targets: seq<Client>)
    requires AllDenote(rooms, sys.rooms, socks) && |sys.socks| == |socks| && roomID in rooms
    requires forall i :: 0 <= i < |socks| ==> socks[i].id == i
    requires forall i :: 0 <= i < |socks| ==>
               sys.socks[i].client.user == socks[i].user && sys.socks[i].client.room == socks[i].roomID
    requires forall c :: c in targets <==>
               c.user in rooms[roomID].clients && rooms[roomID].clients[c.user] == c && exclude != Some(c.user)
    ensures forall i :: 0 <= i < |socks| ==> (socks[i] in targets <==> H.Target(sys, roomID, exclude, i))
    ensures forall c :: c in targets ==> c in socks
  {
    forall i | 0 <= i < |socks| ensures socks[i] in targets <==> H.Target(sys, roomID, exclude, i) {
      CurrentMatches(rooms, sys, socks, socks[i]);
      if socks[i] in targets {
        assert IsEntry(socks[i], socks[i].user, roomID, sys.rooms[roomID].clients[socks[i].user], socks);
      }
    }
    forall c | c in targets ensures c in socks {
      assert IsEntry(c, c.user, roomID, sys.rooms[roomID].clients[c.user], socks);
    }
  }
}
