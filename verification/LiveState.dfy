/** Live state follows presence: locations and emergencies belong to present users. */
module LiveState {
  import opened Types
  import opened Frames
  import opened HubModel
  import I = HubInvariants
  import C = ClientModel

  ghost predicate RoomFollows(rs: Room) {
    rs.locations.Keys <= rs.clients.Keys && rs.emergencies <= rs.clients.Keys
  }

  ghost predicate FollowsPresence(sys: Sys) {
    forall room :: room in sys.rooms ==> RoomFollows(sys.rooms[room])
  }

  /** The step writes live state for the user of socket `s`. */
  predicate WritesLiveState(sys: Sys, step: Step) {
    (step.DoRecord? || (step.DoEmergency? && step.active)) && IsLive(sys, step.s)
  }

  /** The user whose live state the step writes is present. */
  predicate WriterPresent(sys: Sys, step: Step)
    requires WritesLiveState(sys, step)
  {
    Registered(sys, sys.socks[step.s].client.room, sys.socks[step.s].client.user)
  }

  /** A step keeps live state within presence if and only if it is not a location or a
      raised emergency of a user who is not present: the frame of a socket that was
      superseded and whose successor has already left. */
  lemma StepFollowsIff(sys: Sys, step: Step)
    requires FollowsPresence(sys)
    ensures FollowsPresence(Apply(sys, step)) <==> (WritesLiveState(sys, step) ==> WriterPresent(sys, step))
  {
    var sys' := Apply(sys, step);
    if WritesLiveState(sys, step) {
      var room, user := sys.socks[step.s].client.room, sys.socks[step.s].client.user;
      assert user in sys'.rooms[room].locations || user in sys'.rooms[room].emergencies;
      if WriterPresent(sys, step) {
        forall r | r in sys'.rooms ensures RoomFollows(sys'.rooms[r]) {
          assert RoomFollows(RoomFor(sys.rooms, r));
        }
      } else {
        assert !RoomFollows(sys'.rooms[room]);
      }
    } else {
      forall r | r in sys'.rooms ensures RoomFollows(sys'.rooms[r]) {
        assert RoomFollows(RoomFor(sys.rooms, r));
      }
    }
  }

  /** Every location and raised emergency of the run is of a user present at the time. */
  ghost predicate WritersPresent(sys: Sys, steps: seq<Step>)
    decreases |steps|
  {
    steps == [] ||
    (&& (WritesLiveState(sys, steps[0]) ==> WriterPresent(sys, steps[0]))
     && WritersPresent(Apply(sys, steps[0]), steps[1..]))
  }

  /** Live state follows presence on every run in which no absent user's socket still
      handles a location or raises an emergency. */
  lemma {:induction false} RunFollows(sys: Sys, steps: seq<Step>)
    requires FollowsPresence(sys) && WritersPresent(sys, steps)
    ensures FollowsPresence(Run(sys, steps))
    decreases |steps|
  {
    if steps != [] {
      StepFollowsIff(sys, steps[0]);
      RunFollows(Apply(sys, steps[0]), steps[1..]);
    }
  }

  /** It is enough that superseded sockets handle no further frames: a frame handled by
      a socket nobody superseded is always of a present user. */
  lemma CurrentSocketIsPresent(steps: seq<Step>, step: Step)
    requires var sys := Run(INIT, steps); WritesLiveState(sys, step) && I.IsLatest(sys, step.s)
    ensures WriterPresent(Run(INIT, steps), step)
  {
    I.InitInv();
    I.RunKeeps(INIT, steps);
    assert Current(Run(INIT, steps), step.s);
  }

  /** Superseded sockets handle no location and raise no emergency. */
  ghost predicate SupersededSilent(sys: Sys, steps: seq<Step>)
    decreases |steps|
  {
    steps == [] ||
    (&& (WritesLiveState(sys, steps[0]) ==> I.IsLatest(sys, steps[0].s))
     && SupersededSilent(Apply(sys, steps[0]), steps[1..]))
  }

  lemma {:induction false} SilentMeansPresent(sys: Sys, steps: seq<Step>)
    requires I.Inv(sys) && SupersededSilent(sys, steps)
    ensures WritersPresent(sys, steps)
    decreases |steps|
  {
    if steps != [] {
      assert WritesLiveState(sys, steps[0]) ==> Current(sys, steps[0].s);
      I.StepKeeps(sys, steps[0]);
      SilentMeansPresent(Apply(sys, steps[0]), steps[1..]);
    }
  }

  /** Live state follows presence on every run in which superseded sockets are silent. */
  lemma LiveStateFollows(steps: seq<Step>, room: Id)
    requires SupersededSilent(INIT, steps) && room in Run(INIT, steps).rooms
    ensures var rs := Run(INIT, steps).rooms[room];
            rs.locations.Keys <= rs.clients.Keys && rs.emergencies <= rs.clients.Keys
  {
    I.InitInv();
    SilentMeansPresent(INIT, steps);
    RunFollows(INIT, steps);
    assert RoomFollows(Run(INIT, steps).rooms[room]);
  }

  /** The code does not stop a superseded socket's read loop, so the rule has an
      exception: a socket is superseded, its successor leaves, and the old read loop
      then handles one more location. */
  lemma SupersededSocketBreaksIt(loc: Location)
    ensures var joins := [DoJoin(1, 7), DoJoin(1, 7)];
            var ends := [DoClient(1, C.Close("read loop ended")), DoRemove(1)];
            var late := [DoSweep(1), DoRecord(0, loc)];
            !FollowsPresence(Run(INIT, joins + ends + late))
  {
    var joins := [DoJoin(1, 7), DoJoin(1, 7)];
    var ends := [DoClient(1, C.Close("read loop ended")), DoRemove(1)];
    var late := [DoSweep(1), DoRecord(0, loc)];
    var s2 := Join(Join(INIT, 1, 7), 1, 7);
    var s3 := Apply(s2, ends[0]);
    RunTwo(INIT, joins[0], joins[1]);
    RunTwo(s2, ends[0], ends[1]);
    RunTwo(Apply(s3, ends[1]), late[0], late[1]);
    RunAppend(INIT, joins + ends, late);
    RunAppend(INIT, joins, ends);
    SuccessorClosed();
    SuccessorLeft(s3, loc);
  }

  lemma SuccessorClosed()
    ensures var sys := Apply(Join(Join(INIT, 1, 7), 1, 7), DoClient(1, C.Close("read loop ended")));
            && |sys.socks| == 2 && IsLive(sys, 0) && IsLive(sys, 1)
            && sys.socks[0].client.room == 1 == sys.socks[1].client.room
            && sys.socks[0].client.user == 7 == sys.socks[1].client.user && sys.socks[1].client.closed
            && sys.rooms.Keys == {1} && sys.rooms[1].clients == map[7 := 1]
  {
    var once := Join(INIT, 1, 7);
    assert once.rooms == map[1 := Room(map[7 := 0], map[], {})] && |once.socks| == 1;
  }

  /** The state of `SupersededSocketBreaksIt` before the successor's leave. */
  lemma SuccessorLeft(sys: Sys, loc: Location)
    requires |sys.socks| == 2 && IsLive(sys, 0) && IsLive(sys, 1)
    requires sys.socks[0].client.room == 1 == sys.socks[1].client.room
    requires sys.socks[0].client.user == 7 == sys.socks[1].client.user && sys.socks[1].client.closed
    requires sys.rooms.Keys == {1} && sys.rooms[1].clients == map[7 := 1]
    ensures !FollowsPresence(RecordLocation(LeaveSweep(LeaveRemove(sys, 1), 1), 0, loc))
  {
    var left := LeaveRemove(sys, 1);
    assert Current(sys, 1) && left.rooms[1].clients == map[] && left.socks[1].life == Sweeping;
    var swept := LeaveSweep(left, 1);
    assert 1 !in swept.rooms;
    var late := RecordLocation(swept, 0, loc);
    assert 7 in late.rooms[1].locations && !RoomFollows(late.rooms[1]);
  }

  /** A leave that removes a user drops their location and emergency with them, and
      reports a cleared emergency exactly when there was a flag to drop. */
  lemma LeaveClearsLiveState(sys: Sys, s: nat)
    requires IsLive(sys, s) && sys.socks[s].client.closed && Current(sys, s)
    ensures var room, user := sys.socks[s].client.room, sys.socks[s].client.user;
            var sys' := LeaveRemove(sys, s);
            && !Registered(sys', room, user)
            && user !in sys'.rooms[room].locations && user !in sys'.rooms[room].emergencies
            && (ClearsEmergency(sys, s) <==> sys'.rooms[room].emergencies != sys.rooms[room].emergencies)
            && (forall u :: u != user ==>
                  && (u in sys'.rooms[room].locations <==> u in sys.rooms[room].locations)
                  && (u in sys'.rooms[room].emergencies <==> u in sys.rooms[room].emergencies)
                  && (Registered(sys', room, u) <==> Registered(sys, room, u)))
  {
  }
}
