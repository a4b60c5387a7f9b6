/** The realtime hub as a state machine whose steps are the critical sections of the
    code: a join, the two halves of a leave, each locked update of a room, each fan-out
    and each event of a client. A socket is named by its position in the order of joins.
    A step that is not enabled leaves the state alone, so a run is any list of steps. */
module HubModel {
  import opened Types
  import opened Frames
  import C = ClientModel

  /** `Live` until the leave starts, `Sweeping` between its two halves, then `Gone`. */
  datatype Life = Live | Sweeping | Gone

  datatype Sock = Sock(client: C.ClientState, life: Life)

  datatype Room = Room(clients: map<Id, nat>, locations: map<Id, Location>, emergencies: set<Id>)

  /** A `true` result of `join` or of `leave`. */
  datatype Transition = Transition(room: Id, user: Id, present: bool)

  datatype Sys = Sys(rooms: map<Id, Room>, socks: seq<Sock>, trans: seq<Transition>)

  const EMPTY_ROOM: Room := Room(map[], map[], {})

  const INIT: Sys := Sys(map[], [], [])

  /** The room a `roomFor(id, true)` yields. */
  function RoomFor(rooms: map<Id, Room>, room: Id): Room {
    if room in rooms then rooms[room] else EMPTY_ROOM
  }

  predicate Registered(sys: Sys, room: Id, user: Id) {
    room in sys.rooms && user in sys.rooms[room].clients
  }

  /** The socket is the one its room holds for its user. */
  predicate Current(sys: Sys, s: nat) {
    && s < |sys.socks|
    && Registered(sys, sys.socks[s].client.room, sys.socks[s].client.user)
    && sys.rooms[sys.socks[s].client.room].clients[sys.socks[s].client.user] == s
  }

  predicate IsLive(sys: Sys, s: nat) {
    s < |sys.socks| && sys.socks[s].life == Live
  }

  function OnClient(socks: seq<Sock>, s: nat, step: C.ClientStep): seq<Sock> {
    if s < |socks| then socks[s := socks[s].(client := C.Apply(socks[s].client, step))] else socks
  }

  function Join(sys: Sys, room: Id, user: Id): Sys {
    var rs := RoomFor(sys.rooms, room);
    var had := user in rs.clients;
    var socks :=
      if had then OnClient(sys.socks, rs.clients[user], C.Close("replaced by new connection")) else sys.socks;
    Sys(sys.rooms[room := rs.(clients := rs.clients[user := |sys.socks|])],
        socks + [Sock(C.NewClient(user, room), Live)],
        if had then sys.trans else sys.trans + [Transition(room, user, true)])
  }

  function WithoutUser(rs: Room, user: Id): Room {
    Room(rs.clients - {user}, rs.locations - {user}, rs.emergencies - {user})
  }

  /** The first half of `leave`, under the room lock. The read loop closes the client
      before it returns, so only a closed socket leaves. */
  function LeaveRemove(sys: Sys, s: nat): Sys {
    if !IsLive(sys, s) || !sys.socks[s].client.closed then sys
    else
      var room, user := sys.socks[s].client.room, sys.socks[s].client.user;
      if room !in sys.rooms then sys.(socks := sys.socks[s := sys.socks[s].(life := Gone)])
      else
        var rs := if Current(sys, s) then WithoutUser(sys.rooms[room], user) else sys.rooms[room];
        var life := if rs.clients == map[] then Sweeping else Gone;
        Sys(sys.rooms[room := rs],
            sys.socks[s := sys.socks[s].(life := life)],
            if Current(sys, s) then sys.trans + [Transition(room, user, false)] else sys.trans)
  }

  /** The `clearedEmergency` result of the leave that `LeaveRemove` starts. */
  predicate ClearsEmergency(sys: Sys, s: nat) {
    Current(sys, s) && sys.socks[s].client.user in sys.rooms[sys.socks[s].client.room].emergencies
  }

  /** The second half of `leave`, under the hub lock, with its re-check. */
  function LeaveSweep(sys: Sys, s: nat): Sys {
    if s < |sys.socks| && sys.socks[s].life == Sweeping then
      var room := sys.socks[s].client.room;
      sys.(rooms := if room in sys.rooms && sys.rooms[room].clients == map[] then sys.rooms - {room} else sys.rooms,
           socks := sys.socks[s := sys.socks[s].(life := Gone)])
    else sys
  }

  /** `SetEmergency` on the user of a socket whose read loop is running. */
  function SetEmergency(sys: Sys, s: nat, active: bool): Sys {
    if !IsLive(sys, s) then sys
    else
      var room, user := sys.socks[s].client.room, sys.socks[s].client.user;
      var rs := RoomFor(sys.rooms, room);
      var flagged := if active then rs.emergencies + {user} else rs.emergencies - {user};
      sys.(rooms := sys.rooms[room := rs.(emergencies := flagged)])
  }

  /** The `changed` result of `SetEmergency`. */
  predicate ChangesEmergency(sys: Sys, s: nat, active: bool) {
    && IsLive(sys, s)
    && (sys.socks[s].client.user in RoomFor(sys.rooms, sys.socks[s].client.room).emergencies) != active
  }

  function RecordLocation(sys: Sys, s: nat, loc: Location): Sys {
    if !IsLive(sys, s) then sys
    else
      var room, user := sys.socks[s].client.room, sys.socks[s].client.user;
      var rs := RoomFor(sys.rooms, room);
      sys.(rooms := sys.rooms[room := rs.(locations := rs.locations[user := loc])])
  }

  function SnapshotOf(rs: Room): Frame {
    Snapshot(rs.clients.Keys, rs.emergencies, rs.locations)
  }

  /** `snapshot` may re-create the room; the frame is then queued on the socket. */
  function SendSnapshot(sys: Sys, s: nat): Sys {
    if !IsLive(sys, s) then sys
    else
      var room := sys.socks[s].client.room;
      var rs := RoomFor(sys.rooms, room);
      sys.(rooms := sys.rooms[room := rs], socks := OnClient(sys.socks, s, C.Enqueue(SnapshotOf(rs))))
  }

  /** The sockets a broadcast to `room` reaches. */
  predicate Target(sys: Sys, room: Id, exclude: Option<Id>, s: nat) {
    Current(sys, s) && sys.socks[s].client.room == room && exclude != Some(sys.socks[s].client.user)
  }

  /** One client event on every target: an enqueue for a broadcast, a close for the
      second loop of `BroadcastRoomEnded`. */
  function Fanout(sys: Sys, room: Id, event: C.ClientStep, exclude: Option<Id>): Sys {
    sys.(socks := seq(|sys.socks|, i requires 0 <= i < |sys.socks| =>
      if Target(sys, room, exclude, i) then sys.socks[i].(client := C.Apply(sys.socks[i].client, event))
      else sys.socks[i]))
  }

  datatype Step =
    | DoJoin(room: Id, user: Id)
    | DoSnapshot(s: nat)
    | DoFanout(room: Id, event: C.ClientStep, exclude: Option<Id>)
    | DoRecord(s: nat, loc: Location)
    | DoEmergency(s: nat, active: bool)
    | DoClient(s: nat, event: C.ClientStep)
    | DoRemove(s: nat)
    | DoSweep(s: nat)

  function Apply(sys: Sys, step: Step): Sys {
    match step
    case DoJoin(room, user) => Join(sys, room, user)
    case DoSnapshot(s) => SendSnapshot(sys, s)
    case DoFanout(room, event, exclude) => Fanout(sys, room, event, exclude)
    case DoRecord(s, loc) => RecordLocation(sys, s, loc)
    case DoEmergency(s, active) => SetEmergency(sys, s, active)
    case DoClient(s, event) => sys.(socks := OnClient(sys.socks, s, event))
    case DoRemove(s) => LeaveRemove(sys, s)
    case DoSweep(s) => LeaveSweep(sys, s)
  }

  function Run(sys: Sys, steps: seq<Step>): Sys
    decreases |steps|
  {
    if steps == [] then sys else Run(Apply(sys, steps[0]), steps[1..])
  }

  lemma {:induction false} RunAppend(sys: Sys, a: seq<Step>, b: seq<Step>)
    ensures Run(sys, a + b) == Run(Run(sys, a), b)
    decreases |a|
  {
    if a == [] {
      assert a + b == b;
    } else {
      assert (a + b)[0] == a[0] && (a + b)[1..] == a[1..] + b;
      RunAppend(Apply(sys, a[0]), a[1..], b);
    }
  }

  lemma RunOne(sys: Sys, a: Step)
    ensures Run(sys, [a]) == Apply(sys, a)
  {
    assert [a][1..] == [];
  }

  lemma RunTwo(sys: Sys, a: Step, b: Step)
    ensures Run(sys, [a, b]) == Apply(Apply(sys, a), b)
  {
    RunOne(Apply(sys, a), b);
    assert [a, b][1..] == [b];
  }
}
