/** The socket lifecycle and the REST-triggered hub calls as actions, each a fixed list
    of hub steps, and what a client can reconstruct from the frames it gets: on runs of
    whole actions, the snapshot plus the deltas is exactly the hub's room. */
module Replica {
  import opened Types
  import opened Frames
  import opened HubModel
  import I = HubInvariants
  import C = ClientModel

  /** A frame that changes what a client believes about presence, emergencies or
      locations. */
  predicate IsDelta(f: Frame) {
    f.Snapshot? || f.MemberPresent? || f.MemberAbsent? || f.Emergency? || f.LocationEvent?
  }

  datatype Action =
    | Connect(room: Id, user: Id, snapshotOk: bool)
    | Disconnect(s: nat)
    | ReceiveLocation(s: nat, loc: Location)
    | ReceiveEmergency(s: nat, active: bool)
    | LeaveRoom(room: Id, user: Id)
    | KickUser(room: Id, user: Id, actor: Id)
    | EndRoom(room: Id)
    | Notify(room: Id, frame: Frame, exclude: Option<Id>)
    | Reply(s: nat, frame: Frame)
    | OnSocket(s: nat, event: C.ClientStep)

  /** The socket the hub holds for a user, if any. */
  function Entry(sys: Sys, room: Id, user: Id): Option<nat> {
    if Registered(sys, room, user) then Some(sys.rooms[room].clients[user]) else None
  }

  function Say(room: Id, f: Frame, exclude: Option<Id>): Step {
    DoFanout(room, C.Enqueue(f), exclude)
  }

  /** The hub steps an action performs, in order. */
  function Plan(sys: Sys, a: Action): seq<Step> {
    match a
    case Connect(room, user, ok) =>
      [DoJoin(room, user)]
      + (if ok then [DoSnapshot(|sys.socks|)] else [])
      + (if Registered(sys, room, user) then [] else [Say(room, MemberPresent(user), Some(user))])
    case Disconnect(s) =>
      if !IsLive(sys, s) then []
      else
        var room, user := sys.socks[s].client.room, sys.socks[s].client.user;
        [DoClient(s, C.Close("read loop ended")), DoRemove(s), DoSweep(s)]
        + (if ClearsEmergency(sys, s) then [Say(room, Emergency(user, false), None)] else [])
        + (if Current(sys, s) then [Say(room, MemberAbsent(user), Some(user))] else [])
    case ReceiveLocation(s, loc) =>
      if !IsLive(sys, s) then []
      else
        var room, user := sys.socks[s].client.room, sys.socks[s].client.user;
        [DoRecord(s, loc), Say(room, LocationEvent(user, loc), Some(user))]
    case ReceiveEmergency(s, active) =>
      if !ChangesEmergency(sys, s, active) then [DoEmergency(s, active)]
      else
        var room, user := sys.socks[s].client.room, sys.socks[s].client.user;
        [DoEmergency(s, active), Say(room, Emergency(user, active), None)]
    case LeaveRoom(room, user) =>
      [Say(room, MemberLeft(user), None)]
      + (match Entry(sys, room, user) case Some(s) => [DoClient(s, C.Close("left room"))] case None => [])
    case KickUser(room, user, actor) =>
      [Say(room, Kicked(user, actor), Some(user))]
      + (match Entry(sys, room, user)
         case Some(s) => [DoClient(s, C.Enqueue(Kicked(user, actor))), DoClient(s, C.Close("kicked"))]
         case None => [])
    case EndRoom(room) => [Say(room, RoomEnded, None), DoFanout(room, C.Close("room ended"), None)]
    case Notify(room, f, exclude) => if IsDelta(f) then [] else [Say(room, f, exclude)]
    case Reply(s, f) => if IsDelta(f) then [] else [DoClient(s, C.Enqueue(f))]
    case OnSocket(s, event) => if event.Enqueue? then [] else [DoClient(s, event)]
  }

  function Tell(sys: Sys, room: Id, f: Frame, exclude: Option<Id>): Sys {
    Fanout(sys, room, C.Enqueue(f), exclude)
  }

  function OnSock(sys: Sys, s: nat, event: C.ClientStep): Sys {
    sys.(socks := OnClient(sys.socks, s, event))
  }

  /** The state between the snapshot and the announcement. */
  function Shown(sys: Sys, room: Id, user: Id, ok: bool): Sys {
    if ok then SendSnapshot(Join(sys, room, user), |sys.socks|) else Join(sys, room, user)
  }

  function PerformConnect(sys: Sys, room: Id, user: Id, ok: bool): Sys {
    var shown := Shown(sys, room, user, ok);
    if Registered(sys, room, user) then shown else Tell(shown, room, MemberPresent(user), Some(user))
  }

  /** Both halves of a leave, back to back. */
  function Leave(sys: Sys, s: nat): Sys {
    LeaveSweep(LeaveRemove(sys, s), s)
  }

  function PerformDisconnect(sys: Sys, s: nat): Sys
    requires IsLive(sys, s)
  {
    var room, user := sys.socks[s].client.room, sys.socks[s].client.user;
    var left := Leave(OnSock(sys, s, C.Close("read loop ended")), s);
    var calmed := if ClearsEmergency(sys, s) then Tell(left, room, Emergency(user, false), None) else left;
    if Current(sys, s) then Tell(calmed, room, MemberAbsent(user), Some(user)) else calmed
  }

  function PerformLocation(sys: Sys, s: nat, loc: Location): Sys
    requires IsLive(sys, s)
  {
    var room, user := sys.socks[s].client.room, sys.socks[s].client.user;
    Tell(RecordLocation(sys, s, loc), room, LocationEvent(user, loc), Some(user))
  }

  function PerformEmergency(sys: Sys, s: nat, active: bool): Sys {
    var mid := SetEmergency(sys, s, active);
    if ChangesEmergency(sys, s, active) then
      Tell(mid, sys.socks[s].client.room, Emergency(sys.socks[s].client.user, active), None)
    else mid
  }

  function PerformLeaveRoom(sys: Sys, room: Id, user: Id): Sys {
    var told := Tell(sys, room, MemberLeft(user), None);
    match Entry(sys, room, user)
    case Some(s) => OnSock(told, s, C.Close("left room"))
    case None => told
  }

  function PerformKick(sys: Sys, room: Id, user: Id, actor: Id): Sys {
    var told := Tell(sys, room, Kicked(user, actor), Some(user));
    match Entry(sys, room, user)
    case Some(s) => OnSock(OnSock(told, s, C.Enqueue(Kicked(user, actor))), s, C.Close("kicked"))
    case None => told
  }

  function PerformEnd(sys: Sys, room: Id): Sys {
    Fanout(Tell(sys, room, RoomEnded, None), room, C.Close("room ended"), None)
  }

  /** What an action does as a whole. */
  function Perform(sys: Sys, a: Action): Sys {
    match a
    case Connect(room, user, ok) => PerformConnect(sys, room, user, ok)
    case Disconnect(s) => if IsLive(sys, s) then PerformDisconnect(sys, s) else sys
    case ReceiveLocation(s, loc) => if IsLive(sys, s) then PerformLocation(sys, s, loc) else sys
    case ReceiveEmergency(s, active) => PerformEmergency(sys, s, active)
    case LeaveRoom(room, user) => PerformLeaveRoom(sys, room, user)
    case KickUser(room, user, actor) => PerformKick(sys, room, user, actor)
    case EndRoom(room) => PerformEnd(sys, room)
    case Notify(room, f, exclude) => if IsDelta(f) then sys else Tell(sys, room, f, exclude)
    case Reply(s, f) => if IsDelta(f) then sys else OnSock(sys, s, C.Enqueue(f))
    case OnSocket(s, event) => if event.Enqueue? then sys else OnSock(sys, s, event)
  }

  function PerformAll(sys: Sys, actions: seq<Action>): Sys
    decreases |actions|
  {
    if actions == [] then sys else PerformAll(Perform(sys, actions[0]), actions[1..])
  }

  // --- the client's replica -------------------------------------------------------

  datatype View = View(synced: bool, present: set<Id>, emergencies: set<Id>, locations: map<Id, Location>)

  /** How a client applies one frame: a snapshot replaces everything, later frames
      update it, and a member who goes absent takes their location along. */
  function Fold(v: View, f: Frame): View {
    match f
    case Snapshot(present, emergencies, locations) => View(true, present, emergencies, locations)
    case MemberPresent(u) => v.(present := v.present + {u})
    case MemberAbsent(u) => v.(present := v.present - {u}, locations := v.locations - {u})
    case Emergency(u, active) => v.(emergencies := if active then v.emergencies + {u} else v.emergencies - {u})
    case LocationEvent(u, loc) => v.(locations := v.locations[u := loc])
    case _ => v
  }

  function FoldAll(frames: seq<Frame>): View {
    if frames == [] then View(false, {}, {}, map[])
    else Fold(FoldAll(frames[..|frames| - 1]), frames[|frames| - 1])
  }

  lemma FoldAppend(frames: seq<Frame>, f: Frame)
    ensures FoldAll(frames + [f]) == Fold(FoldAll(frames), f)
  {
    assert (frames + [f])[..|frames|] == frames;
  }

  /** The view shows the room: who is present, who has an emergency, and where
      everybody but the viewer is. */
  ghost predicate Shows(v: View, rs: Room, viewer: Id) {
    && v.present == rs.clients.Keys
    && v.emergencies == rs.emergencies
    && (forall u :: u != viewer ==> (u in v.locations <==> u in rs.locations))
    && (forall u :: u != viewer && u in v.locations && u in rs.locations ==> v.locations[u] == rs.locations[u])
  }

  /** The replica invariant of one socket. */
  ghost predicate InSync(sys: Sys, s: nat)
    requires s < |sys.socks|
  {
    var c := sys.socks[s].client;
    Current(sys, s) && !c.closed && FoldAll(c.accepted).synced ==>
      Shows(FoldAll(c.accepted), sys.rooms[c.room], c.user)
  }

  ghost predicate AllInSync(sys: Sys) {
    forall s :: 0 <= s < |sys.socks| ==> InSync(sys, s)
  }

  // --- effect of a fan-out ---------------------------------------------------------

  /** A fan-out changes no room; a socket that is still open afterwards was open before
      and got exactly the frame addressed to it. */
  lemma SayEffect(sys: Sys, room: Id, f: Frame, exclude: Option<Id>, s: nat)
    requires s < |sys.socks|
    ensures var sys' := Tell(sys, room, f, exclude);
            && sys'.rooms == sys.rooms && |sys'.socks| == |sys.socks|
            && Current(sys', s) == Current(sys, s) && IsLive(sys', s) == IsLive(sys, s)
            && var c, d := sys.socks[s].client, sys'.socks[s].client;
            && d.room == c.room && d.user == c.user
            && (!d.closed ==> !c.closed && d.accepted == c.accepted + (if Target(sys, room, exclude, s)
                then [f] else []))
  {
  }

  lemma SayKeepsSync(sys: Sys, room: Id, f: Frame, exclude: Option<Id>)
    requires AllInSync(sys) && !IsDelta(f)
    ensures AllInSync(Tell(sys, room, f, exclude))
  {
    var sys' := Tell(sys, room, f, exclude);
    forall s | 0 <= s < |sys'.socks| ensures InSync(sys', s) {
      SayEffect(sys, room, f, exclude, s);
      FoldAppend(sys.socks[s].client.accepted, f);
      assert InSync(sys, s);
      assert sys.socks[s].client.accepted + [] == sys.socks[s].client.accepted;
    }
  }

  /** Events that address no delta to a socket keep every replica. */
  lemma ClientKeepsSync(sys: Sys, s: nat, event: C.ClientStep)
    requires AllInSync(sys) && (event.Enqueue? ==> !IsDelta(event.frame))
    ensures AllInSync(OnSock(sys, s, event))
  {
    var sys' := OnSock(sys, s, event);
    forall t | 0 <= t < |sys'.socks| ensures InSync(sys', t) {
      assert InSync(sys, t);
      assert Current(sys', t) == Current(sys, t);
      if event.Enqueue? {
        FoldAppend(sys.socks[t].client.accepted, event.frame);
      }
    }
  }

  lemma CloseAllKeepsSync(sys: Sys, room: Id, why: string)
    requires AllInSync(sys)
    ensures AllInSync(Fanout(sys, room, C.Close(why), None))
  {
    var sys' := Fanout(sys, room, C.Close(why), None);
    forall t | 0 <= t < |sys'.socks| ensures InSync(sys', t) {
      assert InSync(sys, t);
      assert Current(sys', t) == Current(sys, t);
    }
  }

  // --- actions that change the room -------------------------------------------------

  /** The socket will be in sync once `f` is fanned out. */
  ghost predicate Awaits(sys: Sys, s: nat, room: Id, f: Frame, exclude: Option<Id>)
    requires s < |sys.socks|
  {
    var c := sys.socks[s].client;
    Current(sys, s) && !c.closed && FoldAll(c.accepted).synced ==>
      Shows(if Target(sys, room, exclude, s) then Fold(FoldAll(c.accepted), f) else FoldAll(c.accepted),
            sys.rooms[c.room], c.user)
  }

  lemma FoldMaybe(frames: seq<Frame>, f: Frame, sent: bool)
    ensures FoldAll(frames + (if sent then [f] else [])) == if sent then Fold(FoldAll(frames), f) else FoldAll(frames)
  {
    FoldAppend(frames, f);
    assert frames + [] == frames;
  }

  lemma AnnounceSyncsOne(sys: Sys, room: Id, f: Frame, exclude: Option<Id>, s: nat)
    requires !f.Snapshot? && s < |sys.socks| && Awaits(sys, s, room, f, exclude)
    ensures s < |Tell(sys, room, f, exclude).socks| && InSync(Tell(sys, room, f, exclude), s)
  {
    var c, sent := sys.socks[s].client, Target(sys, room, exclude, s);
    SayEffect(sys, room, f, exclude, s);
    FoldMaybe(c.accepted, f, sent);
  }

  lemma AnnounceSyncs(sys: Sys, room: Id, f: Frame, exclude: Option<Id>)
    requires !f.Snapshot?
    requires forall s :: 0 <= s < |sys.socks| ==> Awaits(sys, s, room, f, exclude)
    ensures AllInSync(Tell(sys, room, f, exclude))
  {
    forall s | 0 <= s < |sys.socks| ensures InSync(Tell(sys, room, f, exclude), s) {
      AnnounceSyncsOne(sys, room, f, exclude, s);
    }
  }

  /** After a join the newcomer has no view yet and the others miss at most the
      announcement of the newcomer. */
  lemma JoinAwaits(sys: Sys, room: Id, user: Id, s: nat)
    requires AllInSync(sys) && s < |sys.socks|
    ensures var mid := Join(sys, room, user);
            && Awaits(mid, s, room, MemberPresent(user), Some(user))
            && (Registered(sys, room, user) ==> InSync(mid, s))
  {
    var mid := Join(sys, room, user);
    assert InSync(sys, s);
    if Current(mid, s) && !mid.socks[s].client.closed {
      assert Current(sys, s);
      assert mid.socks[s].client.accepted == sys.socks[s].client.accepted;
    }
  }

  lemma SnapshotSyncs(sys: Sys, s: nat)
    requires IsLive(sys, s) && C.Inv(sys.socks[s].client) && sys.socks[s].client.accepted == []
    requires Current(sys, s)
    ensures var sys' := SendSnapshot(sys, s);
            && sys'.rooms == sys.rooms && InSync(sys', s)
            && |sys'.socks| == |sys.socks|
            && (forall t :: 0 <= t < |sys.socks| && t != s ==> sys'.socks[t] == sys.socks[t])
            && sys'.socks[s].client.user == sys.socks[s].client.user
            && sys'.socks[s].client.room == sys.socks[s].client.room
  {
    var sys' := SendSnapshot(sys, s);
    var f := SnapshotOf(sys.rooms[sys.socks[s].client.room]);
    FoldAppend([], f);
    assert [] + [f] == [f];
    assert sys'.rooms == sys.rooms;
  }

  lemma NewcomerAwaits(sys: Sys, room: Id, user: Id, ok: bool)
    requires I.Inv(sys)
    ensures var shown := Shown(sys, room, user, ok);
            && |shown.socks| == |sys.socks| + 1
            && InSync(shown, |sys.socks|) && Awaits(shown, |sys.socks|, room, MemberPresent(user), Some(user))
  {
    I.JoinKeeps(sys, room, user);
    if ok {
      SnapshotSyncs(Join(sys, room, user), |sys.socks|);
    }
  }

  lemma OthersAwait(sys: Sys, room: Id, user: Id, ok: bool, s: nat)
    requires I.Inv(sys) && AllInSync(sys) && s < |sys.socks|
    ensures var shown := Shown(sys, room, user, ok);
            && |shown.socks| == |sys.socks| + 1
            && Awaits(shown, s, room, MemberPresent(user), Some(user))
            && (Registered(sys, room, user) ==> InSync(shown, s))
  {
    var mid := Join(sys, room, user);
    JoinAwaits(sys, room, user, s);
    if ok {
      I.JoinKeeps(sys, room, user);
      SnapshotSyncs(mid, |sys.socks|);
      assert Current(Shown(sys, room, user, ok), s) == Current(mid, s);
    }
  }

  lemma ConnectKeepsSync(sys: Sys, room: Id, user: Id, ok: bool)
    requires I.Inv(sys) && AllInSync(sys)
    ensures AllInSync(PerformConnect(sys, room, user, ok))
  {
    var shown := Shown(sys, room, user, ok);
    NewcomerAwaits(sys, room, user, ok);
    forall s | 0 <= s < |sys.socks|
      ensures Awaits(shown, s, room, MemberPresent(user), Some(user))
      ensures Registered(sys, room, user) ==> InSync(shown, s)
    {
      OthersAwait(sys, room, user, ok, s);
    }
    if !Registered(sys, room, user) {
      AnnounceSyncs(shown, room, MemberPresent(user), Some(user));
    }
  }

  /** A leave touches nothing another current socket can see, except that the leaver is
      gone from the room. */
  lemma LeaveEffect(sys: Sys, s: nat, t: nat)
    requires IsLive(sys, s) && sys.socks[s].client.closed && t < |sys.socks|
    ensures var left := Leave(sys, s);
            && |left.socks| == |sys.socks|
            && left.socks[t].client == sys.socks[t].client
            && (Current(left, t) <==> Current(sys, t) && t != s)
            && (Current(left, t) ==>
                  var room := sys.socks[t].client.room;
                  && room in sys.rooms
                  && left.rooms[room] == if Current(sys, s) && room == sys.socks[s].client.room
                                         then WithoutUser(sys.rooms[room], sys.socks[s].client.user)
                                         else sys.rooms[room])
  {
    var a := LeaveRemove(sys, s);
    assert Current(a, t) <==> Current(sys, t) && t != s;
    var b := LeaveSweep(a, s);
    assert Current(b, t) <==> Current(a, t);
  }

  /** After the leave of a current socket the others miss its absence and, if it had an
      emergency, the end of that; after that of a superseded one they miss nothing. */
  lemma LeaveAwaits(sys: Sys, s: nat, t: nat)
    requires AllInSync(sys) && IsLive(sys, s) && sys.socks[s].client.closed && t < |sys.socks|
    ensures var room, user := sys.socks[s].client.room, sys.socks[s].client.user;
            var left := Leave(sys, s);
            var calmed := if ClearsEmergency(sys, s) then Tell(left, room, Emergency(user, false), None) else left;
            && t < |calmed.socks|
            && if Current(sys, s) then Awaits(calmed, t, room, MemberAbsent(user), Some(user)) else InSync(calmed, t)
  {
    var room, user := sys.socks[s].client.room, sys.socks[s].client.user;
    var left := Leave(sys, s);
    LeaveEffect(sys, s, t);
    assert InSync(sys, t);
    if ClearsEmergency(sys, s) {
      SayEffect(left, room, Emergency(user, false), None, t);
      FoldAppend(left.socks[t].client.accepted, Emergency(user, false));
      assert left.socks[t].client.accepted + [] == left.socks[t].client.accepted;
    }
  }

  lemma DisconnectKeepsSync(sys: Sys, s: nat)
    requires AllInSync(sys) && IsLive(sys, s)
    ensures AllInSync(Perform(sys, Disconnect(s)))
  {
    var room, user := sys.socks[s].client.room, sys.socks[s].client.user;
    var ended := OnSock(sys, s, C.Close("read loop ended"));
    ClientKeepsSync(sys, s, C.Close("read loop ended"));
    assert Current(ended, s) == Current(sys, s) && ClearsEmergency(ended, s) == ClearsEmergency(sys, s);
    var left := Leave(ended, s);
    var calmed := if ClearsEmergency(ended, s) then Tell(left, room, Emergency(user, false), None) else left;
    forall t | 0 <= t < |calmed.socks|
      ensures if Current(ended, s) then Awaits(calmed, t, room, MemberAbsent(user), Some(user)) else InSync(calmed, t)
    {
      LeaveAwaits(ended, s, t);
    }
    if Current(ended, s) {
      AnnounceSyncs(calmed, room, MemberAbsent(user), Some(user));
    }
  }

  lemma LocationKeepsSync(sys: Sys, s: nat, loc: Location)
    requires AllInSync(sys) && IsLive(sys, s)
    ensures AllInSync(Perform(sys, ReceiveLocation(s, loc)))
  {
    var room, user := sys.socks[s].client.room, sys.socks[s].client.user;
    var mid := RecordLocation(sys, s, loc);
    var f := LocationEvent(user, loc);
    forall t | 0 <= t < |mid.socks| ensures Awaits(mid, t, room, f, Some(user)) {
      assert InSync(sys, t);
      assert Current(mid, t) == Current(sys, t);
    }
    AnnounceSyncs(mid, room, f, Some(user));
  }

  lemma EmergencyKeepsSync(sys: Sys, s: nat, active: bool)
    requires AllInSync(sys)
    ensures AllInSync(Perform(sys, ReceiveEmergency(s, active)))
  {
    var mid := SetEmergency(sys, s, active);
    if ChangesEmergency(sys, s, active) {
      var room, user := sys.socks[s].client.room, sys.socks[s].client.user;
      var f := Emergency(user, active);
      forall t | 0 <= t < |mid.socks| ensures Awaits(mid, t, room, f, None) {
        assert InSync(sys, t);
        assert Current(mid, t) == Current(sys, t);
      }
      AnnounceSyncs(mid, room, f, None);
    } else {
      forall t | 0 <= t < |mid.socks| ensures InSync(mid, t) {
        assert InSync(sys, t);
        assert Current(mid, t) == Current(sys, t);
      }
    }
  }

  lemma KickKeepsSync(sys: Sys, room: Id, user: Id, actor: Id)
    requires AllInSync(sys)
    ensures AllInSync(Perform(sys, KickUser(room, user, actor)))
  {
    var f := Kicked(user, actor);
    SayKeepsSync(sys, room, f, Some(user));
    if Registered(sys, room, user) {
      var s := sys.rooms[room].clients[user];
      var told := Tell(sys, room, f, Some(user));
      ClientKeepsSync(told, s, C.Enqueue(f));
      ClientKeepsSync(OnSock(told, s, C.Enqueue(f)), s, C.Close("kicked"));
    }
  }

  lemma LeaveRoomKeepsSync(sys: Sys, room: Id, user: Id)
    requires AllInSync(sys)
    ensures AllInSync(Perform(sys, LeaveRoom(room, user)))
  {
    var f := MemberLeft(user);
    SayKeepsSync(sys, room, f, None);
    if Registered(sys, room, user) {
      ClientKeepsSync(Tell(sys, room, f, None), sys.rooms[room].clients[user], C.Close("left room"));
    }
  }

  lemma EndKeepsSync(sys: Sys, room: Id)
    requires AllInSync(sys)
    ensures AllInSync(Perform(sys, EndRoom(room)))
  {
    SayKeepsSync(sys, room, RoomEnded, None);
    CloseAllKeepsSync(Tell(sys, room, RoomEnded, None), room, "room ended");
  }

  lemma PerformKeepsSync(sys: Sys, a: Action)
    requires I.Inv(sys) && AllInSync(sys)
    ensures AllInSync(Perform(sys, a))
  {
    match a
    case Connect(room, user, ok) => ConnectKeepsSync(sys, room, user, ok);
    case Disconnect(s) => if IsLive(sys, s) { DisconnectKeepsSync(sys, s); }
    case ReceiveLocation(s, loc) => if IsLive(sys, s) { LocationKeepsSync(sys, s, loc); }
    case ReceiveEmergency(s, active) => EmergencyKeepsSync(sys, s, active);
    case LeaveRoom(room, user) => LeaveRoomKeepsSync(sys, room, user);
    case KickUser(room, user, actor) => KickKeepsSync(sys, room, user, actor);
    case EndRoom(room) => EndKeepsSync(sys, room);
    case Notify(room, f, exclude) =>
      if !IsDelta(f) {
        SayKeepsSync(sys, room, f, exclude);
      }
    case Reply(s, f) =>
      if !IsDelta(f) {
        ClientKeepsSync(sys, s, C.Enqueue(f));
      }
    case OnSocket(s, event) =>
      if !event.Enqueue? {
        ClientKeepsSync(sys, s, event);
      }
  }

  /** An action is the run of the hub steps in its plan. */
  lemma ActionIsRun(sys: Sys, a: Action)
    ensures Perform(sys, a) == Run(sys, Plan(sys, a))
  {
    match a
    case Connect(room, user, ok) =>
      var x := [DoJoin(room, user)];
      var y := if ok then [DoSnapshot(|sys.socks|)] else [];
      var z := if Registered(sys, room, user) then [] else [Say(room, MemberPresent(user), Some(user))];
      RunAppend(sys, x + y, z);
      RunAppend(sys, x, y);
    case Disconnect(s) => if IsLive(sys, s) { DisconnectIsRun(sys, s); }
    case ReceiveLocation(s, loc) =>
      if IsLive(sys, s) {
        var user := sys.socks[s].client.user;
        RunTwo(sys, DoRecord(s, loc), Say(sys.socks[s].client.room, LocationEvent(user, loc), Some(user)));
      }
    case ReceiveEmergency(s, active) =>
      RunOne(sys, DoEmergency(s, active));
      if ChangesEmergency(sys, s, active) {
        RunTwo(sys, DoEmergency(s, active),
               Say(sys.socks[s].client.room, Emergency(sys.socks[s].client.user, active), None));
      }
    case LeaveRoom(room, user) =>
      RunOne(sys, Say(room, MemberLeft(user), None));
      if Registered(sys, room, user) {
        RunTwo(sys, Say(room, MemberLeft(user), None), DoClient(sys.rooms[room].clients[user], C.Close("left room")));
      } else {
        assert Plan(sys, a) == [Say(room, MemberLeft(user), None)];
      }
    case KickUser(room, user, actor) => KickIsRun(sys, room, user, actor);
    case EndRoom(room) => RunTwo(sys, Say(room, RoomEnded, None), DoFanout(room, C.Close("room ended"), None));
    case Notify(room, f, exclude) => RunOne(sys, Say(room, f, exclude));
    case Reply(s, f) => RunOne(sys, DoClient(s, C.Enqueue(f)));
    case OnSocket(s, event) => RunOne(sys, DoClient(s, event));
  }

  lemma DisconnectIsRun(sys: Sys, s: nat)
    requires IsLive(sys, s)
    ensures PerformDisconnect(sys, s) == Run(sys, Plan(sys, Disconnect(s)))
  {
    var room, user := sys.socks[s].client.room, sys.socks[s].client.user;
    var x := [DoClient(s, C.Close("read loop ended")), DoRemove(s), DoSweep(s)];
    var y := if ClearsEmergency(sys, s) then [Say(room, Emergency(user, false), None)] else [];
    var z := if Current(sys, s) then [Say(room, MemberAbsent(user), Some(user))] else [];
    RunAppend(sys, x + y, z);
    RunAppend(sys, x, y);
    RunTwo(Apply(sys, x[0]), x[1], x[2]);
    assert x[1..] == [x[1], x[2]];
  }

  lemma KickIsRun(sys: Sys, room: Id, user: Id, actor: Id)
    ensures PerformKick(sys, room, user, actor) == Run(sys, Plan(sys, KickUser(room, user, actor)))
  {
    var f := Kicked(user, actor);
    var told := Say(room, f, Some(user));
    RunOne(sys, told);
    match Entry(sys, room, user)
    case Some(s) =>
      var tail := [DoClient(s, C.Enqueue(f)), DoClient(s, C.Close("kicked"))];
      RunAppend(sys, [told], tail);
      RunTwo(Apply(sys, told), tail[0], tail[1]);
    case None =>
      assert Plan(sys, KickUser(room, user, actor)) == [told];
  }

  lemma ActionKeeps(sys: Sys, a: Action)
    requires I.Inv(sys)
    ensures I.Inv(Perform(sys, a))
  {
    ActionIsRun(sys, a);
    I.RunKeeps(sys, Plan(sys, a));
  }

  /** Runs of actions are hub runs, so everything proved of those holds here too, and
      every replica stays in sync. */
  lemma {:induction false} PerformAllKeeps(sys: Sys, actions: seq<Action>)
    requires I.Inv(sys) && AllInSync(sys)
    ensures I.Inv(PerformAll(sys, actions)) && AllInSync(PerformAll(sys, actions))
    decreases |actions|
  {
    if actions != [] {
      PerformKeepsSync(sys, actions[0]);
      ActionKeeps(sys, actions[0]);
      PerformAllKeeps(Perform(sys, actions[0]), actions[1..]);
    }
  }

  /** Snapshot plus deltas refines the hub: after every run of actions, folding all that
      a current, open socket was sent, was being sent and has queued gives exactly its
      room's present users, emergencies and other users' locations, provided that the
      snapshot was among it. */
  lemma SnapshotPlusDeltas(actions: seq<Action>, s: nat)
    requires var sys := PerformAll(INIT, actions);
             Current(sys, s) && !sys.socks[s].client.closed
    ensures var sys := PerformAll(INIT, actions);
            var c := sys.socks[s].client;
            var v := FoldAll(c.delivered + c.inFlight + c.queue);
            v.synced ==>
              && v.present == sys.rooms[c.room].clients.Keys
              && v.emergencies == sys.rooms[c.room].emergencies
              && (forall u :: u != c.user ==> (u in v.locations <==> u in sys.rooms[c.room].locations))
              && (forall u :: u != c.user && u in v.locations ==> v.locations[u] == sys.rooms[c.room].locations[u])
  {
    I.InitInv();
    PerformAllKeeps(INIT, actions);
    var sys := PerformAll(INIT, actions);
    assert InSync(sys, s) && C.Inv(sys.socks[s].client);
  }
}
