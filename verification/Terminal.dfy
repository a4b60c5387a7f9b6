/** Terminal frames over hub runs: what a hub run does to one client is a run of that
    client, so a `kicked` or `room_ended` frame that was queued before the close is on
    the wire when the pump has drained, whatever the rest of the hub does meanwhile. */
module Terminal {
  import opened Types
  import opened Frames
  import opened HubModel
  import I = HubInvariants
  import C = ClientModel
  import R = Replica

  /** The events a step causes on socket `s`: none or one. */
  function EventsOf(sys: Sys, step: Step, s: nat): seq<C.ClientStep>
    requires s < |sys.socks|
  {
    match step
    case DoJoin(room, user) =>
      if R.Entry(sys, room, user) == Some(s) then [C.Close("replaced by new connection")] else []
    case DoSnapshot(t) =>
      if t == s && IsLive(sys, s) then [C.Enqueue(SnapshotOf(RoomFor(sys.rooms, sys.socks[s].client.room)))] else []
    case DoFanout(room, event, exclude) => if Target(sys, room, exclude, s) then [event] else []
    case DoClient(t, event) => if t == s then [event] else []
    case _ => []
  }

  function Project(sys: Sys, steps: seq<Step>, s: nat): seq<C.ClientStep>
    requires s < |sys.socks|
    decreases |steps|
  {
    if steps == [] then []
    else
      StepKeepsSockets(sys, steps[0]);
      EventsOf(sys, steps[0], s) + Project(Apply(sys, steps[0]), steps[1..], s)
  }

  lemma StepKeepsSockets(sys: Sys, step: Step)
    ensures |sys.socks| <= |Apply(sys, step).socks|
  {
  }

  lemma StepProjects(sys: Sys, step: Step, s: nat)
    requires s < |sys.socks|
    ensures s < |Apply(sys, step).socks|
    ensures Apply(sys, step).socks[s].client == C.Run(sys.socks[s].client, EventsOf(sys, step, s))
  {
    var events := EventsOf(sys, step, s);
    if events != [] {
      assert events[1..] == [];
    }
  }

  /** A hub run is, for each client, a client run. */
  lemma {:induction false} RunProjects(sys: Sys, steps: seq<Step>, s: nat)
    requires s < |sys.socks|
    ensures s < |Run(sys, steps).socks|
    ensures Run(sys, steps).socks[s].client == C.Run(sys.socks[s].client, Project(sys, steps, s))
    decreases |steps|
  {
    if steps != [] {
      var sys' := Apply(sys, steps[0]);
      StepProjects(sys, steps[0], s);
      RunProjects(sys', steps[1..], s);
      C.RunAppend(sys.socks[s].client, EventsOf(sys, steps[0], s), Project(sys', steps[1..], s));
    }
  }

  /** The client has frame `f` on the wire right after all it had accepted in `before`. */
  ghost predicate Arrived(before: C.ClientState, f: Frame, after: C.ClientState) {
    && |before.accepted| < |after.delivered|
    && after.delivered[..|before.accepted| + 1] == before.accepted + [f]
  }

  /** Once `f` has been accepted by a client whose pump is alive, it arrives on every
      later hub run that drains the client. */
  lemma AcceptedArrives(before: C.ClientState, f: Frame, sys: Sys, s: nat, steps: seq<Step>)
    requires s < |sys.socks| && C.Inv(sys.socks[s].client) && !sys.socks[s].client.pump.Stopped?
    requires sys.socks[s].client.accepted == before.accepted + [f]
    requires s < |Run(sys, steps).socks| && Run(sys, steps).socks[s].client.pump == C.Stopped(C.Drained)
    ensures Arrived(before, f, Run(sys, steps).socks[s].client)
  {
    RunProjects(sys, steps, s);
    C.AcceptedBeforeDrainIsDelivered(sys.socks[s].client, Project(sys, steps, s));
  }

  /** A kick that finds the target's pump alive and room in its queue queues the frame
      and closes the client, and on every later run of the hub in which the pump drains
      the frame is delivered right behind everything queued before. */
  lemma KickedFrameArrives(sys: Sys, room: Id, user: Id, actor: Id, steps: seq<Step>)
    requires I.Inv(sys) && Registered(sys, room, user)
    requires var c := sys.socks[sys.rooms[room].clients[user]].client;
             !c.pump.Stopped? && |c.queue| < 32
    ensures var s := sys.rooms[room].clients[user];
            var c := sys.socks[s].client;
            var kicked := R.Perform(sys, R.KickUser(room, user, actor));
            && s < |kicked.socks| && kicked.socks[s].client.closed
            && kicked.socks[s].client.accepted == c.accepted + [Kicked(user, actor)]
            && (!c.closed ==> kicked.socks[s].client.reason == "kicked")
            && s < |Run(kicked, steps).socks|
            && (Run(kicked, steps).socks[s].client.pump == C.Stopped(C.Drained) ==>
                  Arrived(c, Kicked(user, actor), Run(kicked, steps).socks[s].client))
  {
    assert I.EntryIsLatest(sys, room, user);
    var s := sys.rooms[room].clients[user];
    var c := sys.socks[s].client;
    var f := Kicked(user, actor);
    var told := R.Tell(sys, room, f, Some(user));
    assert told.socks[s] == sys.socks[s];
    var kicked := R.Perform(sys, R.KickUser(room, user, actor));
    C.EnqueueKeeps(c, f);
    C.CloseKeeps(C.EnqueueFrame(c, f), "kicked");
    RunProjects(kicked, steps, s);
    if Run(kicked, steps).socks[s].client.pump == C.Stopped(C.Drained) {
      AcceptedArrives(c, f, kicked, s, steps);
    }
  }

  /** Ending a room does the same for every socket registered in it. */
  lemma RoomEndedFrameArrives(sys: Sys, room: Id, user: Id, steps: seq<Step>)
    requires I.Inv(sys) && Registered(sys, room, user)
    requires var c := sys.socks[sys.rooms[room].clients[user]].client;
             !c.pump.Stopped? && |c.queue| < 32
    ensures var s := sys.rooms[room].clients[user];
            var c := sys.socks[s].client;
            var ended := R.Perform(sys, R.EndRoom(room));
            && s < |ended.socks| && ended.socks[s].client.closed
            && ended.socks[s].client.accepted == c.accepted + [RoomEnded]
            && (!c.closed ==> ended.socks[s].client.reason == "room ended")
            && s < |Run(ended, steps).socks|
            && (Run(ended, steps).socks[s].client.pump == C.Stopped(C.Drained) ==>
                  Arrived(c, RoomEnded, Run(ended, steps).socks[s].client))
  {
    assert I.EntryIsLatest(sys, room, user);
    var s := sys.rooms[room].clients[user];
    var c := sys.socks[s].client;
    var told := R.Tell(sys, room, RoomEnded, None);
    assert Target(sys, room, None, s) && Target(told, room, None, s);
    var ended := R.Perform(sys, R.EndRoom(room));
    C.EnqueueKeeps(c, RoomEnded);
    C.CloseKeeps(C.EnqueueFrame(c, RoomEnded), "room ended");
    RunProjects(ended, steps, s);
    if Run(ended, steps).socks[s].client.pump == C.Stopped(C.Drained) {
      AcceptedArrives(c, RoomEnded, ended, s, steps);
    }
  }

  /** On the way the socket sees no failing write or ping, and its request is not cancelled. */
  ghost predicate StaysHealthy(sys: Sys, steps: seq<Step>, s: nat)
    requires s < |sys.socks|
  {
    forall i :: 0 <= i < |Project(sys, steps, s)| ==> C.Healthy(Project(sys, steps, s)[i])
  }

  /** Then a pump that stops has drained. */
  lemma HealthyDrains(sys: Sys, steps: seq<Step>, s: nat)
    requires s < |sys.socks| && C.Inv(sys.socks[s].client) && !sys.socks[s].client.pump.Stopped?
    requires StaysHealthy(sys, steps, s)
    ensures s < |Run(sys, steps).socks|
    ensures Run(sys, steps).socks[s].client.pump.Stopped? ==>
              Run(sys, steps).socks[s].client.pump == C.Stopped(C.Drained)
  {
    RunProjects(sys, steps, s);
    C.HealthyRunDrains(sys.socks[s].client, Project(sys, steps, s));
  }

  /** Of a kick: on every later run of the hub on which the target's writes and pings succeed
      and its request is not cancelled, the frame has arrived once the pump has stopped. */
  lemma KickedFrameReaches(sys: Sys, room: Id, user: Id, actor: Id, steps: seq<Step>)
    requires I.Inv(sys) && Registered(sys, room, user)
    requires var c := sys.socks[sys.rooms[room].clients[user]].client;
             !c.pump.Stopped? && |c.queue| < 32
    requires var s := sys.rooms[room].clients[user];
             var kicked := R.Perform(sys, R.KickUser(room, user, actor));
             s < |kicked.socks| ==> StaysHealthy(kicked, steps, s)
    ensures var s := sys.rooms[room].clients[user];
            var kicked := R.Perform(sys, R.KickUser(room, user, actor));
            && s < |Run(kicked, steps).socks|
            && (Run(kicked, steps).socks[s].client.pump.Stopped? ==>
                  Arrived(sys.socks[s].client, Kicked(user, actor), Run(kicked, steps).socks[s].client))
  {
    var s := sys.rooms[room].clients[user];
    KickedFrameArrives(sys, room, user, actor, steps);
    ActionReady(sys, R.KickUser(room, user, actor), s);
    HealthyDrains(R.Perform(sys, R.KickUser(room, user, actor)), steps, s);
  }

  /** Of the end of a room, for every socket registered in it. */
  lemma RoomEndedFrameReaches(sys: Sys, room: Id, user: Id, steps: seq<Step>)
    requires I.Inv(sys) && Registered(sys, room, user)
    requires var c := sys.socks[sys.rooms[room].clients[user]].client;
             !c.pump.Stopped? && |c.queue| < 32
    requires var s := sys.rooms[room].clients[user];
             var ended := R.Perform(sys, R.EndRoom(room));
             s < |ended.socks| ==> StaysHealthy(ended, steps, s)
    ensures var s := sys.rooms[room].clients[user];
            var ended := R.Perform(sys, R.EndRoom(room));
            && s < |Run(ended, steps).socks|
            && (Run(ended, steps).socks[s].client.pump.Stopped? ==>
                  Arrived(sys.socks[s].client, RoomEnded, Run(ended, steps).socks[s].client))
  {
    var s := sys.rooms[room].clients[user];
    RoomEndedFrameArrives(sys, room, user, steps);
    ActionReady(sys, R.EndRoom(room), s);
    HealthyDrains(R.Perform(sys, R.EndRoom(room)), steps, s);
  }

  lemma SpeakingStopsNoPump(sys: Sys, room: Id, event: C.ClientStep, exclude: Option<Id>, s: nat)
    requires s < |sys.socks| && (event.Enqueue? || event.Close?)
    ensures var sys' := Fanout(sys, room, event, exclude);
            s < |sys'.socks| && sys'.socks[s].client.pump == sys.socks[s].client.pump
  {
  }

  /** A kick or the end of a room stops no pump. */
  lemma ActionStopsNoPump(sys: Sys, a: R.Action, s: nat)
    requires s < |sys.socks| && (a.KickUser? || a.EndRoom?)
    ensures var sys' := R.Perform(sys, a); s < |sys'.socks| && sys'.socks[s].client.pump == sys.socks[s].client.pump
  {
    match a
    case KickUser(room, user, actor) => SpeakingStopsNoPump(sys, room, C.Enqueue(Kicked(user, actor)), Some(user), s);
    case EndRoom(room) =>
      SpeakingStopsNoPump(sys, room, C.Enqueue(RoomEnded), None, s);
      SpeakingStopsNoPump(R.Tell(sys, room, RoomEnded, None), room, C.Close("room ended"), None, s);
  }

  lemma ActionReady(sys: Sys, a: R.Action, s: nat)
    requires I.Inv(sys) && s < |sys.socks| && !sys.socks[s].client.pump.Stopped? && (a.KickUser? || a.EndRoom?)
    ensures var sys' := R.Perform(sys, a);
            s < |sys'.socks| && C.Inv(sys'.socks[s].client) && !sys'.socks[s].client.pump.Stopped?
  {
    R.ActionKeeps(sys, a);
    ActionStopsNoPump(sys, a, s);
    assert I.ClientsLossless(R.Perform(sys, a));
  }
}
