/** The hub's theorems at the grain of its locks. Every run of `JoinRace` without a stale
    insert is matched by a run of `HubModel`, the lookup of a join folded into its insert
    and the lookup of a leave into its removal; so the latest connection wins and presence
    alternates there too. Rooms are collected there for the same reason as above. */
module LockLevel {
  import opened Types
  import opened JoinRace
  import H = HubModel
  import I = HubInvariants
  import C = ClientModel

  /** The clients the hub finds in a room. */
  function ClientsIn(h: Hub, room: Id): map<Id, nat> {
    if room in h.rooms then ClientsOf(h, h.rooms[room]) else map[]
  }

  predicate NotRemoved(phase: Phase) {
    phase.Inside? || phase.Leaving?
  }

  ghost predicate SockSim(k: Sock, x: H.Sock) {
    x.client.room == k.room && x.client.user == k.user && (x.life == H.Live <==> NotRemoved(k.phase))
  }

  /** The same sockets, the same clients in every room, the same transitions. */
  ghost predicate Sim(h: Hub, sys: H.Sys) {
    && |h.socks| == |sys.socks|
    && (forall s :: 0 <= s < |h.socks| ==> SockSim(h.socks[s], sys.socks[s]))
    && h.trans == sys.trans
    && (forall r :: ClientsIn(h, r) == H.RoomFor(sys.rooms, r).clients)
  }

  /** The hub steps that match a step at lock level. */
  function Match(h: Hub, step: Step): seq<H.Step> {
    match step
    case JoinInsert(f) => if Pending(h, f) then [H.DoJoin(h.finds[f].room, h.finds[f].user)] else []
    case LeaveRemove(s) =>
      if s < |h.socks| && h.socks[s].phase.Leaving? then [H.DoClient(s, C.Close("read loop ended")), H.DoRemove(s)]
      else []
    case _ => []
  }

  function MatchAll(h: Hub, steps: seq<Step>): seq<H.Step>
    decreases |steps|
  {
    if steps == [] then [] else Match(h, steps[0]) + MatchAll(Apply(h, steps[0]), steps[1..])
  }

  // --- each step --------------------------------------------------------------------------------

  lemma RoomForClients(h: Hub, room: Id, r: Id)
    requires Inv(h)
    ensures ClientsIn(RoomFor(h, room), r) == ClientsIn(h, r)
  {
  }

  lemma DropClients(h: Hub, room: Id, r: Id)
    ensures ClientsIn(Drop(h, room), r) == ClientsIn(h, r)
  {
  }

  lemma PutClients(h: Hub, o: nat, clients: map<Id, nat>, r: Id)
    requires Inv(h) && Mapped(h, o)
    ensures ClientsIn(Put(h, o, clients), r) == if r == h.objs[o].room then clients else ClientsIn(h, r)
  {
  }

  lemma InsertSims(h: Hub, f: nat, sys: H.Sys)
    requires Inv(h) && Pending(h, f) && Mapped(h, h.finds[f].obj) && Sim(h, sys)
    ensures Sim(Insert(h, f), H.Join(sys, h.finds[f].room, h.finds[f].user))
  {
    var Find(room, user, o, _) := h.finds[f];
    var h', sys' := Insert(h, f), H.Join(sys, room, user);
    assert FindOk(h, h.finds[f]);
    var clients := ClientsOf(h, o)[user := |h.socks|];
    forall r ensures ClientsIn(h', r) == H.RoomFor(sys'.rooms, r).clients {
      PutClients(h, o, clients, r);
      assert ClientsIn(h', r) == ClientsIn(Put(h, o, clients), r);
      assert ClientsIn(h, r) == H.RoomFor(sys.rooms, r).clients;
    }
    assert ClientsIn(h, room) == H.RoomFor(sys.rooms, room).clients;
    forall s | 0 <= s < |h'.socks| ensures SockSim(h'.socks[s], sys'.socks[s]) {
      assert s < |h.socks| ==> SockSim(h.socks[s], sys.socks[s]);
    }
  }

  /** A leaving socket is registered in `HubModel` exactly if the object it has looked up
      still holds it. */
  lemma CurrentIff(h: Hub, s: nat, at: Option<nat>, sys: H.Sys)
    requires Inv(h) && NoneStranded(h) && Sim(h, sys) && At(h, s, Leaving(at))
    ensures H.Current(sys, s) <==> at.Some? && HeldIn(h, s, at.value)
  {
    var room, user := h.socks[s].room, h.socks[s].user;
    assert SockSim(h.socks[s], sys.socks[s]);
    assert ClientsIn(h, room) == H.RoomFor(sys.rooms, room).clients;
    if at.Some? && HeldIn(h, s, at.value) {
      assert !Stranded(h, at.value);
      assert HeldOk(h, at.value, user);
    }
    if H.Current(sys, s) {
      assert room in h.rooms && HeldIn(h, s, h.rooms[room]) && Mapped(h, h.rooms[room]);
      LeavingHeld(h, s, h.rooms[room]);
    }
  }

  /** The close of the read loop and the removal that match one. */
  function Removed(sys: H.Sys, s: nat): H.Sys {
    H.LeaveRemove(H.Apply(sys, H.DoClient(s, C.Close("read loop ended"))), s)
  }

  lemma RemovedEffect(sys: H.Sys, s: nat)
    requires H.IsLive(sys, s)
    ensures var sys', room, user := Removed(sys, s), sys.socks[s].client.room, sys.socks[s].client.user;
            && |sys'.socks| == |sys.socks| && sys'.socks[s].life != H.Live
            && (forall t :: 0 <= t < |sys.socks| ==>
                  && sys'.socks[t].client.room == sys.socks[t].client.room
                  && sys'.socks[t].client.user == sys.socks[t].client.user
                  && (t != s ==> sys'.socks[t].life == sys.socks[t].life))
            && (sys'.trans ==
                  if H.Current(sys, s) then sys.trans + [H.Transition(room, user, false)] else sys.trans)
            && (forall r :: H.RoomFor(sys'.rooms, r).clients ==
                  if r == room && H.Current(sys, s) then H.RoomFor(sys.rooms, r).clients - {user}
                  else H.RoomFor(sys.rooms, r).clients)
  {
    var closed := H.Apply(sys, H.DoClient(s, C.Close("read loop ended")));
    assert closed.socks[s].client.closed && H.IsLive(closed, s);
    assert H.Current(closed, s) == H.Current(sys, s);
  }

  lemma HeldRemovalSims(h: Hub, s: nat, o: nat, sys: H.Sys)
    requires Inv(h) && NoneStranded(h) && Sim(h, sys) && At(h, s, Leaving(Some(o))) && HeldIn(h, s, o)
    ensures Sim(Remove(h, s, o), Removed(sys, s))
  {
    var h', sys' := Remove(h, s, o), Removed(sys, s);
    var clients := ClientsOf(h, o) - {h.socks[s].user};
    CurrentIff(h, s, Some(o), sys);
    assert SockSim(h.socks[s], sys.socks[s]);
    RemovedEffect(sys, s);
    assert !Stranded(h, o) && Mapped(h, o);
    assert HeldOk(h, o, h.socks[s].user);
    forall r ensures ClientsIn(h', r) == H.RoomFor(sys'.rooms, r).clients {
      PutClients(h, o, clients, r);
      assert ClientsIn(h', r) == ClientsIn(Put(h, o, clients), r);
      assert ClientsIn(h, r) == H.RoomFor(sys.rooms, r).clients;
    }
    SocksMoved(h, h', s, sys, sys');
  }

  /** One socket is past its removal; the others are as they were. */
  lemma SocksMoved(h: Hub, h': Hub, s: nat, sys: H.Sys, sys': H.Sys)
    requires Sim(h, sys) && s < |h.socks| && |h'.socks| == |h.socks| && |sys'.socks| == |sys.socks|
    requires forall t :: 0 <= t < |h.socks| && t != s ==> h'.socks[t] == h.socks[t]
    requires h'.socks[s].room == h.socks[s].room && h'.socks[s].user == h.socks[s].user
    requires !NotRemoved(h'.socks[s].phase) && sys'.socks[s].life != H.Live
    requires forall t :: 0 <= t < |sys.socks| ==>
               && sys'.socks[t].client.room == sys.socks[t].client.room
               && sys'.socks[t].client.user == sys.socks[t].client.user
               && (t != s ==> sys'.socks[t].life == sys.socks[t].life)
    ensures forall t :: 0 <= t < |h'.socks| ==> SockSim(h'.socks[t], sys'.socks[t])
  {
    forall t | 0 <= t < |h'.socks| ensures SockSim(h'.socks[t], sys'.socks[t]) {
      assert SockSim(h.socks[t], sys.socks[t]);
    }
  }

  lemma IdleRemovalSims(h: Hub, s: nat, at: Option<nat>, phase: Phase, sys: H.Sys)
    requires Inv(h) && NoneStranded(h) && Sim(h, sys) && At(h, s, Leaving(at))
    requires !(at.Some? && HeldIn(h, s, at.value)) && !NotRemoved(phase)
    ensures Sim(Move(h, s, phase), Removed(sys, s))
  {
    var h', sys' := Move(h, s, phase), Removed(sys, s);
    CurrentIff(h, s, at, sys);
    assert SockSim(h.socks[s], sys.socks[s]);
    RemovedEffect(sys, s);
    forall r ensures ClientsIn(h', r) == H.RoomFor(sys'.rooms, r).clients {
      assert ClientsIn(h', r) == ClientsIn(h, r) == H.RoomFor(sys.rooms, r).clients;
    }
    SocksMoved(h, h', s, sys, sys');
  }

  /** Steps that `HubModel` does not see. */
  lemma HiddenSims(h: Hub, h': Hub, sys: H.Sys)
    requires Sim(h, sys) && h'.trans == h.trans && |h'.socks| == |h.socks|
    requires forall r :: ClientsIn(h', r) == ClientsIn(h, r)
    requires forall s :: 0 <= s < |h.socks| ==>
               && h'.socks[s].room == h.socks[s].room && h'.socks[s].user == h.socks[s].user
               && NotRemoved(h'.socks[s].phase) == NotRemoved(h.socks[s].phase)
    ensures Sim(h', sys)
  {
    forall s | 0 <= s < |h'.socks| ensures SockSim(h'.socks[s], sys.socks[s]) {
      assert SockSim(h.socks[s], sys.socks[s]);
    }
    forall r ensures ClientsIn(h', r) == H.RoomFor(sys.rooms, r).clients {
      assert ClientsIn(h, r) == H.RoomFor(sys.rooms, r).clients;
    }
  }

  lemma HiddenClients(h: Hub, step: Step, r: Id)
    requires Inv(h) && !step.JoinInsert? && !step.LeaveRemove?
    ensures ClientsIn(Apply(h, step), r) == ClientsIn(h, r)
  {
    match step
    case FindRoom(s) => if At(h, s, Inside) { RoomForClients(h, h.socks[s].room, r); }
    case JoinFind(room, user) => RoomForClients(h, room, r);
    case LeaveFind(s) =>
    case LeaveSweep(s) => if At(h, s, Sweeping) { DropClients(h, h.socks[s].room, r); }
  }

  lemma HiddenStep(h: Hub, step: Step, sys: H.Sys)
    requires Inv(h) && Sim(h, sys) && !step.JoinInsert? && !step.LeaveRemove?
    ensures Sim(Apply(h, step), sys)
  {
    forall r ensures ClientsIn(Apply(h, step), r) == ClientsIn(h, r) {
      HiddenClients(h, step, r);
    }
    HiddenSims(h, Apply(h, step), sys);
  }

  lemma StepSims(h: Hub, step: Step, sys: H.Sys)
    requires Inv(h) && NoneStranded(h) && !Stale(h, step) && Sim(h, sys)
    ensures Sim(Apply(h, step), H.Run(sys, Match(h, step)))
  {
    match step
    case JoinInsert(f) =>
      if Pending(h, f) {
        InsertSims(h, f, sys);
        H.RunOne(sys, H.DoJoin(h.finds[f].room, h.finds[f].user));
      }
    case LeaveRemove(s) =>
      if s < |h.socks| && h.socks[s].phase.Leaving? {
        var at := h.socks[s].phase.at;
        H.RunTwo(sys, H.DoClient(s, C.Close("read loop ended")), H.DoRemove(s));
        if at.Some? && HeldIn(h, s, at.value) {
          HeldRemovalSims(h, s, at.value, sys);
        } else {
          IdleRemovalSims(h, s, at, Apply(h, step).socks[s].phase, sys);
        }
      }
    case _ => HiddenStep(h, step, sys);
  }

  /** Every run without a stale insert is matched by a run of `HubModel`. */
  lemma {:induction false} RunSims(h: Hub, steps: seq<Step>, sys: H.Sys)
    requires Inv(h) && NoneStranded(h) && Sim(h, sys) && !EverStale(h, steps)
    ensures Sim(Run(h, steps), H.Run(sys, MatchAll(h, steps)))
    decreases |steps|
  {
    if steps != [] {
      var first := Match(h, steps[0]);
      StepSims(h, steps[0], sys);
      StepKeeps(h, steps[0]);
      RunSims(Apply(h, steps[0]), steps[1..], H.Run(sys, first));
      H.RunAppend(sys, first, MatchAll(Apply(h, steps[0]), steps[1..]));
    }
  }

  // --- the theorems at lock level -----------------------------------------------------------------

  /** No later socket joined the same room as the same user. */
  ghost predicate IsNewest(h: Hub, s: nat)
    requires s < |h.socks|
  {
    forall t :: s < t < |h.socks| ==> h.socks[t].room != h.socks[s].room || h.socks[t].user != h.socks[s].user
  }

  lemma NewestIff(h: Hub, sys: H.Sys, s: nat)
    requires Sim(h, sys) && s < |h.socks|
    ensures IsNewest(h, s) <==> I.IsLatest(sys, s)
  {
    assert SockSim(h.socks[s], sys.socks[s]);
    forall t: nat | s < t < |h.socks|
      ensures I.SamePlace(sys, s, t) <==> h.socks[t].room == h.socks[s].room && h.socks[t].user == h.socks[s].user
    {
      assert SockSim(h.socks[t], sys.socks[t]);
    }
  }

  /** Latest connection wins: after every run of locked sections without a stale insert, the
      socket the hub finds for a user in a room is the newest that joined there as that
      user, if that has not been removed, and there is none otherwise. */
  lemma LatestWins(steps: seq<Step>, room: Id, user: Id, s: nat)
    requires !EverStale(INIT, steps)
    ensures var h := Run(INIT, steps);
            && (user in ClientsIn(h, room) && ClientsIn(h, room)[user] == s
                <==>
                && s < |h.socks| && h.socks[s].room == room && h.socks[s].user == user
                && NotRemoved(h.socks[s].phase) && IsNewest(h, s))
  {
    var h, matched := Run(INIT, steps), MatchAll(INIT, steps);
    var sys := H.Run(H.INIT, matched);
    RunSims(INIT, steps, H.INIT);
    I.LatestConnectionWins(matched, room, user, s);
    assert ClientsIn(h, room) == H.RoomFor(sys.rooms, room).clients;
    if s < |h.socks| {
      assert SockSim(h.socks[s], sys.socks[s]);
      NewestIff(h, sys, s);
    }
  }

  /** Presence transitions alternate, starting with a join, and the hub finds the user
      exactly when there has been one more join than leaves. */
  lemma TransitionsAlternate(steps: seq<Step>, room: Id, user: Id)
    requires !EverStale(INIT, steps)
    ensures var h := Run(INIT, steps);
            var bits := I.Presence(h.trans, room, user);
            && (forall i :: 0 <= i < |bits| ==> bits[i] == (i % 2 == 0))
            && (user in ClientsIn(h, room) <==> I.Count(bits, true) == I.Count(bits, false) + 1)
  {
    var matched := MatchAll(INIT, steps);
    RunSims(INIT, steps, H.INIT);
    I.TransitionsAlternate(matched, room, user);
    assert ClientsIn(Run(INIT, steps), room) == H.RoomFor(H.Run(H.INIT, matched).rooms, room).clients;
  }

  // --- collection ----------------------------------------------------------------------------------

  /** A join between its locks, or a socket that will look at the room again. */
  ghost predicate HoldsBack(h: Hub, room: Id) {
    || (exists f :: 0 <= f < |h.finds| && Pending(h, f) && h.finds[f].room == room)
    || (exists s :: 0 <= s < |h.socks| && WillLook(h, s, room))
  }

  predicate WillLook(h: Hub, s: nat, room: Id) {
    && s < |h.socks| && h.socks[s].room == room
    && (h.socks[s].phase.Inside? || h.socks[s].phase.Sweeping?
        || (h.socks[s].phase.Leaving? && h.socks[s].phase.at.Some?))
  }

  ghost predicate Collected(h: Hub) {
    forall r :: r in h.rooms ==> HoldsBack(h, r)
  }

  lemma ClientHoldsBack(h: Hub, o: nat)
    requires Inv(h) && Mapped(h, o) && ClientsOf(h, o) != map[]
    ensures HoldsBack(h, h.objs[o].room)
  {
    var u :| u in h.objs[o].clients;
    assert HeldOk(h, o, u);
    assert WillLook(h, h.objs[o].clients[u], h.objs[o].room);
  }

  /** What held a room back still does, unless it is the socket that moved on. */
  lemma StillHeldBack(h: Hub, h': Hub, r: Id, moved: Option<nat>)
    requires HoldsBack(h, r) && |h.finds| <= |h'.finds| && |h.socks| <= |h'.socks|
    requires forall f :: 0 <= f < |h.finds| ==> h'.finds[f] == h.finds[f]
    requires forall s :: 0 <= s < |h.socks| && moved != Some(s) ==> h'.socks[s] == h.socks[s]
    requires moved.Some? && WillLook(h, moved.value, r) ==> HoldsBack(h', r)
    ensures HoldsBack(h', r)
  {
    if f :| 0 <= f < |h.finds| && Pending(h, f) && h.finds[f].room == r {
      assert Pending(h', f) && h'.finds[f].room == r;
    } else {
      var s :| 0 <= s < |h.socks| && WillLook(h, s, r);
      if moved != Some(s) {
        assert WillLook(h', s, r);
      }
    }
  }

  lemma InsertCollects(h: Hub, f: nat)
    requires Inv(h) && Collected(h) && Pending(h, f)
    ensures Collected(Insert(h, f))
  {
    var h' := Insert(h, f);
    forall r | r in h'.rooms ensures HoldsBack(h', r) {
      assert HoldsBack(h, r);
      assert WillLook(h', |h.socks|, h.finds[f].room);
      if g :| 0 <= g < |h.finds| && Pending(h, g) && h.finds[g].room == r {
        assert g != f ==> Pending(h', g) && h'.finds[g].room == r;
      } else {
        var s :| 0 <= s < |h.socks| && WillLook(h, s, r);
        assert WillLook(h', s, r);
      }
    }
  }

  lemma RoomForCollects(h: Hub, h': Hub, room: Id)
    requires Collected(h) && h'.rooms == RoomFor(h, room).rooms && h'.socks == h.socks
    requires |h.finds| <= |h'.finds| && forall f :: 0 <= f < |h.finds| ==> h'.finds[f] == h.finds[f]
    requires HoldsBack(h', room)
    ensures Collected(h')
  {
    forall r | r in h'.rooms ensures HoldsBack(h', r) {
      if r != room {
        StillHeldBack(h, h', r, None);
      }
    }
  }

  lemma RemoveCollects(h: Hub, s: nat, o: nat)
    requires Inv(h) && NoneStranded(h) && Collected(h) && At(h, s, Leaving(Some(o)))
    ensures Collected(Remove(h, s, o))
  {
    var h' := Remove(h, s, o);
    RemoveKeeps(h, s, o);
    forall r | r in h'.rooms ensures HoldsBack(h', r) {
      if r == h.socks[s].room {
        if h'.socks[s].phase == Sweeping {
          assert WillLook(h', s, r);
        } else {
          LeftSomebody(h, s, o);
        }
      } else {
        StillHeldBack(h, h', r, Some(s));
      }
    }
  }

  /** A removal that is not followed by a sweep leaves somebody in the room. */
  lemma LeftSomebody(h: Hub, s: nat, o: nat)
    requires Inv(h) && NoneStranded(h) && At(h, s, Leaving(Some(o))) && Remove(h, s, o).socks[s].phase == Gone
    ensures HoldsBack(Remove(h, s, o), h.socks[s].room)
  {
    var h' := Remove(h, s, o);
    RemoveKeeps(h, s, o);
    assert SockOk(h, h.socks[s]);
    assert ClientsOf(h', o) != map[] && !Stranded(h', o) && Mapped(h', o);
    ClientHoldsBack(h', o);
  }

  lemma SweepCollects(h: Hub, s: nat)
    requires Inv(h) && Collected(h) && At(h, s, Sweeping)
    ensures Collected(Apply(h, LeaveSweep(s)))
  {
    var room := h.socks[s].room;
    var dropped, h' := Drop(h, room), Apply(h, LeaveSweep(s));
    DropKeeps(h, room);
    LeaveOn(dropped, s);
    forall r | r in h'.rooms ensures HoldsBack(h', r) {
      if r == room {
        assert h'.objs[h'.rooms[r]].room == r && ClientsOf(h', h'.rooms[r]) != map[];
        ClientHoldsBack(h', h'.rooms[r]);
      } else {
        StillHeldBack(h, h', r, Some(s));
      }
    }
  }

  /** A socket that starts to leave, or that found no room, is no loss: the one still looks
      if its room is there, the other never did. */
  lemma MoveCollects(h: Hub, s: nat, phase: Phase)
    requires Collected(h) && s < |h.socks|
    requires forall r :: r in h.rooms && WillLook(h, s, r) ==> phase.Leaving? && phase.at.Some?
    ensures Collected(Move(h, s, phase))
  {
    var h' := Move(h, s, phase);
    forall r | r in h'.rooms ensures HoldsBack(h', r) {
      if WillLook(h, s, r) {
        assert WillLook(h', s, r);
      }
      StillHeldBack(h, h', r, Some(s));
    }
  }

  lemma FindRoomCollects(h: Hub, s: nat)
    requires Collected(h) && At(h, s, Inside)
    ensures Collected(Apply(h, FindRoom(s)))
  {
    var h' := Apply(h, FindRoom(s));
    assert WillLook(h', s, h.socks[s].room);
    RoomForCollects(h, h', h.socks[s].room);
  }

  lemma JoinFindCollects(h: Hub, room: Id, user: Id)
    requires Collected(h)
    ensures Collected(Apply(h, JoinFind(room, user)))
  {
    var h' := Apply(h, JoinFind(room, user));
    assert Pending(h', |h.finds|) && h'.finds[|h.finds|].room == room;
    RoomForCollects(h, h', room);
  }

  lemma StepCollects(h: Hub, step: Step)
    requires Inv(h) && NoneStranded(h) && Collected(h)
    ensures Collected(Apply(h, step))
  {
    match step
    case FindRoom(s) => if At(h, s, Inside) { FindRoomCollects(h, s); }
    case JoinFind(room, user) => JoinFindCollects(h, room, user);
    case JoinInsert(f) => if Pending(h, f) { InsertCollects(h, f); }
    case LeaveFind(s) => if At(h, s, Inside) { MoveCollects(h, s, Leaving(Lookup(h, h.socks[s].room))); }
    case LeaveRemove(s) =>
      if s < |h.socks| && h.socks[s].phase.Leaving? {
        if h.socks[s].phase.at.Some? {
          RemoveCollects(h, s, h.socks[s].phase.at.value);
        } else {
          MoveCollects(h, s, Gone);
        }
      }
    case LeaveSweep(s) => if At(h, s, Sweeping) { SweepCollects(h, s); }
  }

  lemma {:induction false} RunCollects(h: Hub, steps: seq<Step>)
    requires Inv(h) && NoneStranded(h) && Collected(h) && !EverStale(h, steps)
    ensures Collected(Run(h, steps))
    decreases |steps|
  {
    if steps != [] {
      StepKeeps(h, steps[0]);
      StepCollects(h, steps[0]);
      RunCollects(Apply(h, steps[0]), steps[1..]);
    }
  }

  /** Nothing leaks: after every run without a stale insert, once all joins of a room have
      inserted and all its sockets have finished leaving, the hub has no entry for it. */
  lemma FinishedRoomIsCollected(steps: seq<Step>, room: Id)
    requires !EverStale(INIT, steps)
    ensures var h := Run(INIT, steps);
            && (forall f :: 0 <= f < |h.finds| && h.finds[f].room == room ==> h.finds[f].done)
            && (forall s :: 0 <= s < |h.socks| && h.socks[s].room == room ==> h.socks[s].phase == Gone)
            ==> room !in h.rooms
  {
    RunCollects(INIT, steps);
  }
}
