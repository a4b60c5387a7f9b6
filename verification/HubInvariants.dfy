/** What every interleaving of hub steps keeps: the newest socket of a user is the
    registered one, rooms are collected exactly when nobody can need them, presence
    transitions alternate, and every client stays a lossless queue. */
module HubInvariants {
  import opened Types
  import opened Frames
  import opened HubModel
  import C = ClientModel

  // --- latest connection wins -------------------------------------------------

  ghost predicate SamePlace(sys: Sys, s: nat, t: nat)
    requires s < |sys.socks| && t < |sys.socks|
  {
    && sys.socks[s].client.room == sys.socks[t].client.room
    && sys.socks[s].client.user == sys.socks[t].client.user
  }

  /** No later socket joined the same room as the same user. */
  ghost predicate IsLatest(sys: Sys, s: nat)
    requires s < |sys.socks|
  {
    forall t :: s < t < |sys.socks| ==> !SamePlace(sys, s, t)
  }

  ghost predicate EntryIsLatest(sys: Sys, room: Id, user: Id)
    requires Registered(sys, room, user)
  {
    var s := sys.rooms[room].clients[user];
    && IsLive(sys, s)
    && sys.socks[s].client.room == room
    && sys.socks[s].client.user == user
    && IsLatest(sys, s)
  }

  ghost predicate LatestWins(sys: Sys) {
    && (forall room, user :: Registered(sys, room, user) ==> EntryIsLatest(sys, room, user))
    && (forall s :: IsLive(sys, s) && IsLatest(sys, s) ==> Current(sys, s))
    && (forall s :: 0 <= s < |sys.socks| && !IsLatest(sys, s) ==> sys.socks[s].client.closed)
    && (forall s :: 0 <= s < |sys.socks| && sys.socks[s].life != Live ==> sys.socks[s].client.closed)
  }

  // --- rooms are held by unfinished sockets -------------------------------------

  ghost predicate Holds(sys: Sys, s: nat, room: Id) {
    s < |sys.socks| && sys.socks[s].client.room == room && sys.socks[s].life != Gone
  }

  ghost predicate RoomsHeld(sys: Sys) {
    forall room :: room in sys.rooms ==> exists s: nat :: Holds(sys, s, room)
  }

  // --- presence transitions ------------------------------------------------------

  /** The transitions of one user in one room, in order. */
  function Presence(trans: seq<Transition>, room: Id, user: Id): seq<bool> {
    if trans == [] then []
    else
      var rest := Presence(trans[..|trans| - 1], room, user);
      var last := trans[|trans| - 1];
      if last.room == room && last.user == user then rest + [last.present] else rest
  }

  /** true, false, true, ... */
  ghost predicate Alternates(bits: seq<bool>) {
    forall i :: 0 <= i < |bits| ==> bits[i] == (i % 2 == 0)
  }

  /** The transitions of somebody who is now present, or now is not. */
  ghost predicate Agrees(bits: seq<bool>, present: bool) {
    Alternates(bits) && (present <==> |bits| % 2 == 1)
  }

  ghost predicate PresenceAgrees(sys: Sys, room: Id, user: Id) {
    Agrees(Presence(sys.trans, room, user), Registered(sys, room, user))
  }

  ghost predicate PresenceAlternates(sys: Sys) {
    forall room, user :: PresenceAgrees(sys, room, user)
  }

  // --- clients --------------------------------------------------------------------

  ghost predicate ClientsLossless(sys: Sys) {
    forall s :: 0 <= s < |sys.socks| ==> C.Inv(sys.socks[s].client)
  }

  ghost predicate Inv(sys: Sys) {
    LatestWins(sys) && RoomsHeld(sys) && PresenceAlternates(sys) && ClientsLossless(sys)
  }

  // --- each step ------------------------------------------------------------------

  /** Only clients changed, and each kept its place, its life and its being closed. */
  ghost predicate OnlyClients(sys: Sys, sys': Sys) {
    && sys'.rooms == sys.rooms && sys'.trans == sys.trans && |sys'.socks| == |sys.socks|
    && forall s :: 0 <= s < |sys.socks| ==>
         && sys'.socks[s].life == sys.socks[s].life
         && C.Extends(sys.socks[s].client, sys'.socks[s].client)
  }

  lemma OnlyClientsKeeps(sys: Sys, sys': Sys)
    requires LatestWins(sys) && RoomsHeld(sys) && PresenceAlternates(sys)
    requires OnlyClients(sys, sys')
    ensures LatestWins(sys') && RoomsHeld(sys') && PresenceAlternates(sys')
  {
    assert forall s, t :: 0 <= s < |sys.socks| && 0 <= t < |sys.socks| ==>
        SamePlace(sys', s, t) == SamePlace(sys, s, t);
    assert forall s :: 0 <= s < |sys.socks| ==> IsLatest(sys', s) == IsLatest(sys, s);
    assert forall s: nat :: Current(sys', s) == Current(sys, s);
    assert forall s: nat :: IsLive(sys', s) == IsLive(sys, s);
    forall room, user | Registered(sys', room, user) ensures EntryIsLatest(sys', room, user) {
      assert Registered(sys, room, user) && EntryIsLatest(sys, room, user);
    }
    forall room | room in sys'.rooms ensures exists s: nat :: Holds(sys', s, room) {
      var s: nat :| Holds(sys, s, room);
      assert Holds(sys', s, room);
    }
    forall room, user ensures PresenceAgrees(sys', room, user) {
      assert PresenceAgrees(sys, room, user);
    }
  }

  lemma ClientChanges(sys: Sys, s: nat, event: C.ClientStep)
    requires ClientsLossless(sys)
    ensures var sys' := Apply(sys, DoClient(s, event)); OnlyClients(sys, sys') && ClientsLossless(sys')
  {
    if s < |sys.socks| {
      C.StepKeeps(sys.socks[s].client, event);
      C.StepExtends(sys.socks[s].client, event);
    }
  }

  lemma ClientKeeps(sys: Sys, s: nat, event: C.ClientStep)
    requires Inv(sys)
    ensures Inv(Apply(sys, DoClient(s, event)))
  {
    ClientChanges(sys, s, event);
    OnlyClientsKeeps(sys, Apply(sys, DoClient(s, event)));
  }

  lemma FanoutChangesOne(sys: Sys, room: Id, event: C.ClientStep, exclude: Option<Id>, s: nat)
    requires s < |sys.socks| && C.Inv(sys.socks[s].client)
    ensures var k := Fanout(sys, room, event, exclude).socks[s];
            k.life == sys.socks[s].life && C.Extends(sys.socks[s].client, k.client) && C.Inv(k.client)
  {
    C.StepKeeps(sys.socks[s].client, event);
    C.StepExtends(sys.socks[s].client, event);
  }

  lemma FanoutChanges(sys: Sys, room: Id, event: C.ClientStep, exclude: Option<Id>)
    requires ClientsLossless(sys)
    ensures var sys' := Fanout(sys, room, event, exclude); OnlyClients(sys, sys') && ClientsLossless(sys')
  {
    var sys' := Fanout(sys, room, event, exclude);
    forall s | 0 <= s < |sys.socks|
      ensures sys'.socks[s].life == sys.socks[s].life
      ensures C.Extends(sys.socks[s].client, sys'.socks[s].client) && C.Inv(sys'.socks[s].client)
    {
      FanoutChangesOne(sys, room, event, exclude, s);
    }
  }

  lemma FanoutKeeps(sys: Sys, room: Id, event: C.ClientStep, exclude: Option<Id>)
    requires Inv(sys)
    ensures Inv(Fanout(sys, room, event, exclude))
  {
    FanoutChanges(sys, room, event, exclude);
    OnlyClientsKeeps(sys, Fanout(sys, room, event, exclude));
  }

  /** Location, emergency and snapshot steps keep every registration; they may bring
      back the room of a socket that is still there. */
  lemma TouchKeeps(sys: Sys, sys': Sys, s: nat)
    requires Inv(sys)
    requires IsLive(sys, s) && sys'.socks == sys.socks && sys'.trans == sys.trans
    requires sys'.rooms.Keys == sys.rooms.Keys + {sys.socks[s].client.room}
    requires forall room :: room in sys'.rooms ==> sys'.rooms[room].clients == RoomFor(sys.rooms, room).clients
    ensures Inv(sys')
  {
    assert forall room, user :: Registered(sys', room, user) == Registered(sys, room, user);
    assert forall t: nat :: Current(sys', t) == Current(sys, t);
    assert forall t: nat :: IsLive(sys', t) == IsLive(sys, t);
    assert forall t: nat, u: nat :: t < |sys.socks| && u < |sys.socks| ==>
        SamePlace(sys', t, u) == SamePlace(sys, t, u);
    assert forall t: nat :: t < |sys.socks| ==> IsLatest(sys', t) == IsLatest(sys, t);
    forall room, user | Registered(sys', room, user) ensures EntryIsLatest(sys', room, user) {
      assert EntryIsLatest(sys, room, user);
    }
    forall room | room in sys'.rooms ensures exists t: nat :: Holds(sys', t, room) {
      if room == sys.socks[s].client.room {
        assert Holds(sys', s, room);
      } else {
        var t: nat :| Holds(sys, t, room);
        assert Holds(sys', t, room);
      }
    }
    forall room, user ensures PresenceAgrees(sys', room, user) {
      assert PresenceAgrees(sys, room, user);
    }
  }

  /** A snapshot looks the room up and then queues the frame. */
  lemma SnapshotSplits(sys: Sys, s: nat)
    requires IsLive(sys, s)
    ensures var room := sys.socks[s].client.room;
            var mid := sys.(rooms := sys.rooms[room := RoomFor(sys.rooms, room)]);
            SendSnapshot(sys, s) == Apply(mid, DoClient(s, C.Enqueue(SnapshotOf(RoomFor(sys.rooms, room)))))
  {
  }

  lemma SnapshotKeeps(sys: Sys, s: nat)
    requires Inv(sys)
    ensures Inv(SendSnapshot(sys, s))
  {
    if IsLive(sys, s) {
      var room := sys.socks[s].client.room;
      var mid := sys.(rooms := sys.rooms[room := RoomFor(sys.rooms, room)]);
      SnapshotSplits(sys, s);
      TouchKeeps(sys, mid, s);
      ClientKeeps(mid, s, C.Enqueue(SnapshotOf(RoomFor(sys.rooms, room))));
    }
  }

  lemma JoinKeepsLatest(sys: Sys, room: Id, user: Id)
    requires LatestWins(sys)
    ensures LatestWins(Join(sys, room, user))
  {
    var sys' := Join(sys, room, user);
    var n := |sys.socks|;
    assert forall s: nat :: s < n ==>
      sys'.socks[s].life == sys.socks[s].life && C.Extends(sys.socks[s].client, sys'.socks[s].client);
    assert forall s: nat, t: nat :: s < n && t < n ==> SamePlace(sys', s, t) == SamePlace(sys, s, t);
    assert IsLatest(sys', n) && Current(sys', n) && IsLive(sys', n);
    forall s: nat | s < n
      ensures IsLatest(sys', s) <==> IsLatest(sys, s) && !SamePlace(sys', s, n)
    {
    }
    forall r, u | Registered(sys', r, u) ensures EntryIsLatest(sys', r, u) {
      if r != room || u != user {
        assert Registered(sys, r, u) && EntryIsLatest(sys, r, u);
        assert !SamePlace(sys', sys.rooms[r].clients[u], n);
      }
    }
    forall s: nat | IsLive(sys', s) && IsLatest(sys', s) ensures Current(sys', s) {
      if s < n {
        assert IsLive(sys, s) && IsLatest(sys, s) && Current(sys, s) && !SamePlace(sys', s, n);
      }
    }
    forall s | 0 <= s < |sys'.socks| && !IsLatest(sys', s) ensures sys'.socks[s].client.closed {
      if IsLatest(sys, s) {
        assert SamePlace(sys', s, n);
        if IsLive(sys, s) {
          assert Current(sys, s);
        }
      }
    }
  }

  /** Appending a transition extends one history and no other. */
  lemma PresenceAppend(trans: seq<Transition>, t: Transition, room: Id, user: Id)
    ensures Presence(trans + [t], room, user) ==
            Presence(trans, room, user) + (if t.room == room && t.user == user then [t.present] else [])
  {
    assert (trans + [t])[..|trans|] == trans;
  }

  /** One more transition, of somebody for whom it is one. */
  lemma AgreesAfter(trans: seq<Transition>, t: Transition, room: Id, user: Id, was: bool)
    requires Agrees(Presence(trans, room, user), was)
    requires t.room == room && t.user == user ==> t.present != was
    ensures Agrees(Presence(trans + [t], room, user), if t.room == room && t.user == user then t.present else was)
  {
    PresenceAppend(trans, t, room, user);
  }

  lemma JoinRegisters(sys: Sys, room: Id, user: Id, r: Id, u: Id)
    ensures Registered(Join(sys, room, user), r, u) <==> Registered(sys, r, u) || (r == room && u == user)
  {
  }

  lemma JoinKeepsPresence(sys: Sys, room: Id, user: Id)
    requires PresenceAlternates(sys)
    ensures PresenceAlternates(Join(sys, room, user))
  {
    forall r, u ensures PresenceAgrees(Join(sys, room, user), r, u) {
      assert PresenceAgrees(sys, r, u);
      JoinRegisters(sys, room, user, r, u);
      if !Registered(sys, room, user) {
        AgreesAfter(sys.trans, Transition(room, user, true), r, u, Registered(sys, r, u));
      }
    }
  }

  lemma JoinKeepsRooms(sys: Sys, room: Id, user: Id)
    requires RoomsHeld(sys)
    ensures RoomsHeld(Join(sys, room, user))
  {
    var sys' := Join(sys, room, user);
    assert Holds(sys', |sys.socks|, room);
    forall r | r in sys'.rooms && r != room ensures exists s: nat :: Holds(sys', s, r) {
      var s: nat :| Holds(sys, s, r);
      assert Holds(sys', s, r);
    }
  }

  lemma JoinKeeps(sys: Sys, room: Id, user: Id)
    requires Inv(sys)
    ensures Inv(Join(sys, room, user))
  {
    JoinKeepsLatest(sys, room, user);
    JoinKeepsPresence(sys, room, user);
    JoinKeepsRooms(sys, room, user);
    var sys' := Join(sys, room, user);
    forall s | 0 <= s < |sys'.socks| ensures C.Inv(sys'.socks[s].client) {
      if s < |sys.socks| {
        C.CloseKeeps(sys.socks[s].client, "replaced by new connection");
      }
    }
  }

  lemma RemoveKeepsLatest(sys: Sys, s: nat)
    requires LatestWins(sys)
    ensures LatestWins(LeaveRemove(sys, s))
  {
    var sys' := LeaveRemove(sys, s);
    if sys' != sys {
      assert forall a: nat, b: nat :: a < |sys.socks| && b < |sys.socks| ==>
          SamePlace(sys', a, b) == SamePlace(sys, a, b);
      assert forall a: nat :: a < |sys.socks| ==> IsLatest(sys', a) == IsLatest(sys, a);
      forall r, u | Registered(sys', r, u) ensures EntryIsLatest(sys', r, u) {
        assert Registered(sys, r, u) && EntryIsLatest(sys, r, u);
      }
      forall a: nat | IsLive(sys', a) && IsLatest(sys', a) ensures Current(sys', a) {
        assert IsLive(sys, a) && IsLatest(sys, a) && Current(sys, a);
      }
    }
  }

  lemma RemoveKeepsRooms(sys: Sys, s: nat)
    requires LatestWins(sys) && RoomsHeld(sys)
    ensures RoomsHeld(LeaveRemove(sys, s))
  {
    var sys' := LeaveRemove(sys, s);
    RemoveKeepsLatest(sys, s);
    forall r | sys' != sys && r in sys'.rooms ensures exists t: nat :: Holds(sys', t, r) {
      var room := sys.socks[s].client.room;
      if r == room && sys'.rooms[r].clients != map[] {
        var u :| u in sys'.rooms[r].clients;
        assert Registered(sys', r, u) && EntryIsLatest(sys', r, u);
        assert Holds(sys', sys'.rooms[r].clients[u], r);
      } else if r == room {
        assert Holds(sys', s, r);
      } else {
        var t: nat :| Holds(sys, t, r);
        assert Holds(sys', t, r);
      }
    }
  }

  lemma RemoveUnregisters(sys: Sys, s: nat, r: Id, u: Id)
    requires IsLive(sys, s) && sys.socks[s].client.closed
    ensures Registered(LeaveRemove(sys, s), r, u) <==>
            Registered(sys, r, u) && !(Current(sys, s) && r == sys.socks[s].client.room
                && u == sys.socks[s].client.user)
  {
  }

  lemma RemoveKeepsPresence(sys: Sys, s: nat)
    requires PresenceAlternates(sys)
    ensures PresenceAlternates(LeaveRemove(sys, s))
  {
    var sys' := LeaveRemove(sys, s);
    if IsLive(sys, s) && sys.socks[s].client.closed {
      var room, user := sys.socks[s].client.room, sys.socks[s].client.user;
      forall r, u ensures PresenceAgrees(sys', r, u) {
        assert PresenceAgrees(sys, r, u);
        RemoveUnregisters(sys, s, r, u);
        if Current(sys, s) {
          AgreesAfter(sys.trans, Transition(room, user, false), r, u, Registered(sys, r, u));
        }
      }
    }
  }

  lemma RemoveKeeps(sys: Sys, s: nat)
    requires Inv(sys)
    ensures Inv(LeaveRemove(sys, s))
  {
    RemoveKeepsLatest(sys, s);
    RemoveKeepsRooms(sys, s);
    RemoveKeepsPresence(sys, s);
    var sys' := LeaveRemove(sys, s);
    assert forall t :: 0 <= t < |sys.socks| ==> sys'.socks[t].client == sys.socks[t].client;
  }

  lemma SweepKeeps(sys: Sys, s: nat)
    requires Inv(sys)
    ensures Inv(LeaveSweep(sys, s))
  {
    var sys' := LeaveSweep(sys, s);
    if sys' != sys {
      var room := sys.socks[s].client.room;
      assert forall r, u :: Registered(sys', r, u) == Registered(sys, r, u);
      assert forall a: nat, b: nat :: a < |sys.socks| && b < |sys.socks| ==>
          SamePlace(sys', a, b) == SamePlace(sys, a, b);
      assert forall a: nat :: a < |sys.socks| ==> IsLatest(sys', a) == IsLatest(sys, a);
      forall r, u | Registered(sys', r, u) ensures EntryIsLatest(sys', r, u) {
        assert EntryIsLatest(sys, r, u);
      }
      forall a: nat | IsLive(sys', a) && IsLatest(sys', a) ensures Current(sys', a) {
        assert IsLive(sys, a) && Current(sys, a);
      }
      forall r | r in sys'.rooms ensures exists t: nat :: Holds(sys', t, r) {
        if r == room {
          var u :| u in sys.rooms[room].clients;
          assert Registered(sys, room, u) && EntryIsLatest(sys, room, u);
          assert Holds(sys', sys.rooms[room].clients[u], r);
        } else {
          var t: nat :| Holds(sys, t, r);
          assert Holds(sys', t, r);
        }
      }
      forall r, u ensures PresenceAgrees(sys', r, u) {
        assert PresenceAgrees(sys, r, u);
      }
    }
  }

  lemma RecordKeeps(sys: Sys, s: nat, loc: Location)
    requires Inv(sys)
    ensures Inv(RecordLocation(sys, s, loc))
  {
    if IsLive(sys, s) {
      TouchKeeps(sys, RecordLocation(sys, s, loc), s);
    }
  }

  lemma EmergencyKeeps(sys: Sys, s: nat, active: bool)
    requires Inv(sys)
    ensures Inv(SetEmergency(sys, s, active))
  {
    if IsLive(sys, s) {
      TouchKeeps(sys, SetEmergency(sys, s, active), s);
    }
  }

  lemma StepKeeps(sys: Sys, step: Step)
    requires Inv(sys)
    ensures Inv(Apply(sys, step))
  {
    match step
    case DoJoin(room, user) => JoinKeeps(sys, room, user);
    case DoSnapshot(s) => SnapshotKeeps(sys, s);
    case DoFanout(room, event, exclude) => FanoutKeeps(sys, room, event, exclude);
    case DoRecord(s, loc) => RecordKeeps(sys, s, loc);
    case DoEmergency(s, active) => EmergencyKeeps(sys, s, active);
    case DoClient(s, event) => ClientKeeps(sys, s, event);
    case DoRemove(s) => RemoveKeeps(sys, s);
    case DoSweep(s) => SweepKeeps(sys, s);
  }

  lemma InitInv()
    ensures Inv(INIT)
  {
  }

  lemma {:induction false} RunKeeps(sys: Sys, steps: seq<Step>)
    requires Inv(sys)
    ensures Inv(Run(sys, steps))
    decreases |steps|
  {
    if steps != [] {
      StepKeeps(sys, steps[0]);
      RunKeeps(Apply(sys, steps[0]), steps[1..]);
    }
  }

  // --- whole runs -----------------------------------------------------------------

  /** Latest connection wins: after every run a user is registered in a room exactly
      when the newest socket that joined there as that user has not left, and the entry
      is that socket. */
  lemma LatestConnectionWins(steps: seq<Step>, room: Id, user: Id, s: nat)
    ensures var sys := Run(INIT, steps);
            && (Registered(sys, room, user) && sys.rooms[room].clients[user] == s
                <==>
                && IsLive(sys, s) && IsLatest(sys, s)
                && sys.socks[s].client.room == room && sys.socks[s].client.user == user)
  {
    InitInv();
    RunKeeps(INIT, steps);
    var sys := Run(INIT, steps);
    if Registered(sys, room, user) {
      assert EntryIsLatest(sys, room, user);
    }
    if IsLive(sys, s) && IsLatest(sys, s) {
      assert Current(sys, s);
    }
  }

  /** After every run at most one socket of a user in a room is open, and a superseded
      socket is closed for good. */
  lemma AtMostOneOpen(steps: seq<Step>, s: nat, t: nat)
    requires var sys := Run(INIT, steps);
             s < |sys.socks| && t < |sys.socks| && SamePlace(sys, s, t)
             && !sys.socks[s].client.closed && !sys.socks[t].client.closed
    ensures s == t
  {
    InitInv();
    RunKeeps(INIT, steps);
    var sys := Run(INIT, steps);
    assert IsLatest(sys, s) && IsLatest(sys, t);
    assert SamePlace(sys, t, s);
  }

  /** A superseded socket's leave, either half, never evicts a registered one. */
  lemma SupersededLeaveEvictsNobody(steps: seq<Step>, s: nat, room: Id, user: Id)
    requires var sys := Run(INIT, steps);
             s < |sys.socks| && !IsLatest(sys, s) && Registered(sys, room, user)
    ensures var sys := Run(INIT, steps);
            && var a := LeaveRemove(sys, s); var b := LeaveSweep(sys, s);
            && Registered(a, room, user) && a.rooms[room].clients[user] == sys.rooms[room].clients[user]
            && Registered(b, room, user) && b.rooms[room].clients[user] == sys.rooms[room].clients[user]
            && a.trans == b.trans == sys.trans
  {
    InitInv();
    RunKeeps(INIT, steps);
    var sys := Run(INIT, steps);
    assert Current(sys, s) ==> EntryIsLatest(sys, sys.socks[s].client.room, sys.socks[s].client.user);
  }

  /** Two-phase leave is safe: after every run each registered socket's room is in the
      hub, and no sweep removes a room some socket is registered in. */
  lemma SweepNeverDropsClients(steps: seq<Step>, s: nat, t: nat)
    requires IsLive(Run(INIT, steps), s) && IsLatest(Run(INIT, steps), s)
    ensures var sys := Run(INIT, steps);
            && Current(sys, s)
            && Current(LeaveSweep(sys, t), s)
            && sys.socks[s].client.room in LeaveSweep(sys, t).rooms
  {
    InitInv();
    RunKeeps(INIT, steps);
    var sys := Run(INIT, steps);
    SweepKeeps(sys, t);
    var sys' := LeaveSweep(sys, t);
    assert forall a: nat, b: nat :: a < |sys.socks| && b < |sys.socks| ==>
        SamePlace(sys', a, b) == SamePlace(sys, a, b);
    assert IsLive(sys', s) && IsLatest(sys', s);
  }

  /** Two-phase leave leaks nothing: after every run each room of the hub has a socket
      that has not finished leaving, so once all of a room's sockets have, its entry is
      gone, although location, emergency and snapshot steps can bring a room back. */
  lemma FinishedRoomIsCollected(steps: seq<Step>, room: Id)
    ensures var sys := Run(INIT, steps);
            && (room in sys.rooms ==> exists s: nat :: Holds(sys, s, room))
            && ((forall s :: 0 <= s < |sys.socks| && sys.socks[s].client.room == room ==> sys.socks[s].life == Gone)
                ==> room !in sys.rooms)
  {
    InitInv();
    RunKeeps(INIT, steps);
  }

  function Count(bits: seq<bool>, b: bool): nat {
    if bits == [] then 0 else Count(bits[..|bits| - 1], b) + (if bits[|bits| - 1] == b then 1 else 0)
  }

  lemma {:induction false} AlternatingCounts(bits: seq<bool>)
    requires Alternates(bits)
    ensures Count(bits, true) == Count(bits, false) + |bits| % 2
  {
    if bits != [] {
      AlternatingCounts(bits[..|bits| - 1]);
    }
  }

  /** Presence transitions alternate: over every run the true results of `join` and
      `leave` for a user in a room strictly alternate starting with a join, and the user
      is present exactly when there has been one more join than leaves. */
  lemma TransitionsAlternate(steps: seq<Step>, room: Id, user: Id)
    ensures var sys := Run(INIT, steps);
            var bits := Presence(sys.trans, room, user);
            && (forall i :: 0 <= i < |bits| ==> bits[i] == (i % 2 == 0))
            && (Registered(sys, room, user) <==> Count(bits, true) == Count(bits, false) + 1)
            && (!Registered(sys, room, user) <==> Count(bits, true) == Count(bits, false))
  {
    InitInv();
    RunKeeps(INIT, steps);
    var sys := Run(INIT, steps);
    assert PresenceAgrees(sys, room, user);
    AlternatingCounts(Presence(sys.trans, room, user));
  }

  /** Every client of every hub run is a lossless queue until it is closed. */
  lemma HubClientsLossless(steps: seq<Step>, s: nat)
    requires s < |Run(INIT, steps).socks|
    ensures var c := Run(INIT, steps).socks[s].client;
            && |c.queue| <= 32
            && (!c.closed ==> c.delivered + c.inFlight + c.queue == c.addressed)
  {
    InitInv();
    RunKeeps(INIT, steps);
    assert C.Inv(Run(INIT, steps).socks[s].client);
  }
}
