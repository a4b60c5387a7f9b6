/** Which sockets are open: only a join opens one, and the hub calls of leaving, kicking
    and ending close theirs. */
module OpenSockets {
  import opened Types
  import opened Frames
  import H = HubModel
  import R = Replica
  import C = ClientModel
  import P = Terminal

  /** The hub holds the socket for its user, and it is open. */
  predicate OpenSock(sys: H.Sys, s: nat) {
    H.Current(sys, s) && !sys.socks[s].client.closed
  }

  /** The socket is one of this user in this room. */
  predicate IsSock(sys: H.Sys, s: nat, room: Id, user: Id) {
    s < |sys.socks| && sys.socks[s].client.room == room && sys.socks[s].client.user == user
  }

  /** The hub calls of the room handlers. */
  predicate IsCall(a: R.Action) {
    a.LeaveRoom? || a.KickUser? || a.EndRoom? || a.Notify?
  }

  /** Whose connection the call ends. */
  predicate Ends(a: R.Action, room: Id, user: Id) {
    || (a.LeaveRoom? && a.room == room && a.user == user)
    || (a.KickUser? && a.room == room && a.user == user)
    || (a.EndRoom? && a.room == room)
  }

  // --- steps ------------------------------------------------------------------------------

  lemma FanoutOpens(sys: H.Sys, room: Id, event: C.ClientStep, exclude: Option<Id>, s: nat)
    requires OpenSock(H.Fanout(sys, room, event, exclude), s)
    ensures OpenSock(sys, s)
    ensures event.Close? ==> !H.Target(sys, room, exclude, s)
  {
    C.StepExtends(sys.socks[s].client, event);
  }

  lemma OnSockOpens(sys: H.Sys, t: nat, event: C.ClientStep, s: nat)
    requires OpenSock(R.OnSock(sys, t, event), s)
    ensures OpenSock(sys, s)
    ensures event.Close? ==> s != t
  {
    C.StepExtends(sys.socks[s].client, event);
  }

  lemma SnapshotOpens(sys: H.Sys, t: nat, s: nat)
    requires OpenSock(H.SendSnapshot(sys, t), s)
    ensures OpenSock(sys, s)
  {
    if H.IsLive(sys, t) {
      C.StepExtends(sys.socks[t].client, C.Enqueue(H.SnapshotOf(H.RoomFor(sys.rooms, sys.socks[t].client.room))));
    }
  }

  lemma StepOpens(sys: H.Sys, step: H.Step, s: nat)
    requires !step.DoJoin? && OpenSock(H.Apply(sys, step), s)
    ensures OpenSock(sys, s)
  {
    match step
    case DoSnapshot(t) => SnapshotOpens(sys, t, s);
    case DoFanout(room, event, exclude) => FanoutOpens(sys, room, event, exclude, s);
    case DoRecord(t, loc) =>
    case DoEmergency(t, active) =>
    case DoClient(t, event) => OnSockOpens(sys, t, event, s);
    case DoRemove(t) =>
    case DoSweep(t) =>
  }

  /** A join opens its own socket and no other. */
  lemma JoinOpens(sys: H.Sys, room: Id, user: Id, s: nat)
    requires OpenSock(H.Join(sys, room, user), s)
    ensures s == |sys.socks| || OpenSock(sys, s)
  {
  }

  lemma NewcomerIsOpen(sys: H.Sys, room: Id, user: Id)
    ensures var sys' := H.Join(sys, room, user);
            OpenSock(sys', |sys.socks|) && IsSock(sys', |sys.socks|, room, user)
  {
  }

  lemma JoinKeepsSock(sys: H.Sys, room: Id, user: Id)
    ensures forall s, r, u :: IsSock(sys, s, r, u) ==> IsSock(H.Join(sys, room, user), s, r, u)
  {
  }

  // --- calls ------------------------------------------------------------------------------

  lemma LeaveRoomOpens(sys: H.Sys, room: Id, user: Id, s: nat)
    requires OpenSock(R.PerformLeaveRoom(sys, room, user), s)
    ensures OpenSock(sys, s) && !IsSock(sys, s, room, user)
  {
    var told := R.Tell(sys, room, MemberLeft(user), None);
    if H.Registered(sys, room, user) {
      OnSockOpens(told, sys.rooms[room].clients[user], C.Close("left room"), s);
    }
    FanoutOpens(sys, room, C.Enqueue(MemberLeft(user)), None, s);
    C.StepExtends(sys.socks[s].client, C.Enqueue(MemberLeft(user)));
  }

  lemma KickOpens(sys: H.Sys, room: Id, user: Id, actor: Id, s: nat)
    requires OpenSock(R.PerformKick(sys, room, user, actor), s)
    ensures OpenSock(sys, s) && !IsSock(sys, s, room, user)
  {
    var f := Kicked(user, actor);
    var told := R.Tell(sys, room, f, Some(user));
    if H.Registered(sys, room, user) {
      var t := sys.rooms[room].clients[user];
      OnSockOpens(R.OnSock(told, t, C.Enqueue(f)), t, C.Close("kicked"), s);
      OnSockOpens(told, t, C.Enqueue(f), s);
    }
    FanoutOpens(sys, room, C.Enqueue(f), Some(user), s);
    C.StepExtends(sys.socks[s].client, C.Enqueue(f));
  }

  lemma EndOpens(sys: H.Sys, room: Id, s: nat)
    requires OpenSock(R.PerformEnd(sys, room), s)
    ensures OpenSock(sys, s) && sys.socks[s].client.room != room
  {
    var told := R.Tell(sys, room, RoomEnded, None);
    FanoutOpens(told, room, C.Close("room ended"), None, s);
    FanoutOpens(sys, room, C.Enqueue(RoomEnded), None, s);
    C.StepExtends(sys.socks[s].client, C.Enqueue(RoomEnded));
  }

  /** A call opens nothing and closes the sockets of whom it ends the connection of. */
  lemma CallOpens(sys: H.Sys, a: R.Action, s: nat)
    requires IsCall(a) && OpenSock(R.Perform(sys, a), s)
    ensures OpenSock(sys, s) && !Ends(a, sys.socks[s].client.room, sys.socks[s].client.user)
  {
    match a
    case LeaveRoom(room, user) => LeaveRoomOpens(sys, room, user, s);
    case KickUser(room, user, actor) => KickOpens(sys, room, user, actor, s);
    case EndRoom(room) => EndOpens(sys, room, s);
    case Notify(room, f, exclude) => if !R.IsDelta(f) { FanoutOpens(sys, room, C.Enqueue(f), exclude, s); }
  }

  // --- sockets keep their place --------------------------------------------------------------

  /** The same sockets, each of the same user in the same room. */
  ghost predicate SameSocks(sys: H.Sys, sys': H.Sys) {
    && |sys'.socks| == |sys.socks|
    && (forall s, r, u :: IsSock(sys', s, r, u) == IsSock(sys, s, r, u))
  }

  lemma StepSameSocks(sys: H.Sys, step: H.Step)
    requires !step.DoJoin?
    ensures SameSocks(sys, H.Apply(sys, step))
  {
    forall s | 0 <= s < |sys.socks|
      ensures C.Extends(sys.socks[s].client, H.Apply(sys, step).socks[s].client)
    {
      P.StepProjects(sys, step, s);
      C.RunExtends(sys.socks[s].client, P.EventsOf(sys, step, s));
    }
  }

  lemma {:induction false} RunSameSocks(sys: H.Sys, steps: seq<H.Step>)
    requires forall i :: 0 <= i < |steps| ==> !steps[i].DoJoin?
    ensures SameSocks(sys, H.Run(sys, steps))
    decreases |steps|
  {
    if steps != [] {
      StepSameSocks(sys, steps[0]);
      RunSameSocks(H.Apply(sys, steps[0]), steps[1..]);
    }
  }

  lemma OnlyConnectJoins(sys: H.Sys, a: R.Action)
    requires !a.Connect?
    ensures forall i :: 0 <= i < |R.Plan(sys, a)| ==> !R.Plan(sys, a)[i].DoJoin?
  {
  }

  lemma ActionSameSocks(sys: H.Sys, a: R.Action)
    requires !a.Connect?
    ensures SameSocks(sys, R.Perform(sys, a))
  {
    OnlyConnectJoins(sys, a);
    R.ActionIsRun(sys, a);
    RunSameSocks(sys, R.Plan(sys, a));
  }
}
