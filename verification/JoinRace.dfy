/** Joins and leaves at the grain of their locks. A join looks its room object up under
    the hub's lock and inserts into it under the object's own, so a sweep can drop the
    object from the hub in between and leave the client in an object nobody finds. This
    module keeps the identity of room objects and tells exactly which runs do that. */
module JoinRace {
  import opened Types
  import H = HubModel

  /** Where a socket is in the code, once it has joined. */
  datatype Phase =
    | Inside                   // join has returned
    | Leaving(at: Option<nat>) // leave has looked the object up
    | Sweeping                 // leave saw the object empty
    | Gone

  datatype Sock = Sock(room: Id, user: Id, phase: Phase)

  /** A join between its two locks; `done` once it has inserted. */
  datatype Find = Find(room: Id, user: Id, obj: nat, done: bool)

  /** A room object; it never changes its room. */
  datatype Obj = Obj(room: Id, clients: map<Id, nat>)

  /** `trans` records the true results of join and leave. */
  datatype Hub = Hub(
    rooms: map<Id, nat>,
    objs: seq<Obj>,
    finds: seq<Find>,
    socks: seq<Sock>,
    trans: seq<H.Transition>)

  const INIT: Hub := Hub(map[], [], [], [], [])

  datatype Step =
    | FindRoom(s: nat)               // another lookup of a socket, creating a missing room
    | JoinFind(room: Id, user: Id)
    | JoinInsert(f: nat)
    | LeaveFind(s: nat)
    | LeaveRemove(s: nat)
    | LeaveSweep(s: nat)

  function RoomFor(h: Hub, room: Id): Hub {
    if room in h.rooms then h
    else h.(rooms := h.rooms[room := |h.objs|], objs := h.objs + [Obj(room, map[])])
  }

  function Lookup(h: Hub, room: Id): Option<nat> {
    if room in h.rooms then Some(h.rooms[room]) else None
  }

  predicate At(h: Hub, s: nat, phase: Phase) {
    s < |h.socks| && h.socks[s].phase == phase
  }

  function Move(h: Hub, s: nat, phase: Phase): Hub
    requires s < |h.socks|
  {
    h.(socks := h.socks[s := h.socks[s].(phase := phase)])
  }

  function Put(h: Hub, o: nat, clients: map<Id, nat>): Hub {
    if o < |h.objs| then h.(objs := h.objs[o := h.objs[o].(clients := clients)]) else h
  }

  function ClientsOf(h: Hub, o: nat): map<Id, nat> {
    if o < |h.objs| then h.objs[o].clients else map[]
  }

  predicate Pending(h: Hub, f: nat) {
    f < |h.finds| && !h.finds[f].done
  }

  function Insert(h: Hub, f: nat): Hub
    requires Pending(h, f)
  {
    var Find(room, user, o, _) := h.finds[f];
    var clients := ClientsOf(h, o);
    Put(h, o, clients[user := |h.socks|]).(
      finds := h.finds[f := h.finds[f].(done := true)],
      socks := h.socks + [Sock(room, user, Inside)],
      trans := if user in clients then h.trans else h.trans + [H.Transition(room, user, true)])
  }

  /** The object holds this very socket for its user. */
  predicate HeldIn(h: Hub, s: nat, o: nat) {
    s < |h.socks| && h.socks[s].user in ClientsOf(h, o) && ClientsOf(h, o)[h.socks[s].user] == s
  }

  function TakeOut(h: Hub, s: nat, o: nat): Hub
    requires HeldIn(h, s, o)
  {
    Put(h, o, ClientsOf(h, o) - {h.socks[s].user}).(
      trans := h.trans + [H.Transition(h.socks[s].room, h.socks[s].user, false)])
  }

  function Remove(h: Hub, s: nat, o: nat): Hub
    requires s < |h.socks|
  {
    var h' := if HeldIn(h, s, o) then TakeOut(h, s, o) else h;
    Move(h', s, if ClientsOf(h', o) == map[] then Sweeping else Gone)
  }

  function Drop(h: Hub, room: Id): Hub {
    if room in h.rooms && ClientsOf(h, h.rooms[room]) == map[] then h.(rooms := h.rooms - {room}) else h
  }

  function Apply(h: Hub, step: Step): Hub {
    match step
    case FindRoom(s) => if At(h, s, Inside) then RoomFor(h, h.socks[s].room) else h
    case JoinFind(room, user) =>
      var h' := RoomFor(h, room);
      h'.(finds := h'.finds + [Find(room, user, h'.rooms[room], false)])
    case JoinInsert(f) => if Pending(h, f) then Insert(h, f) else h
    case LeaveFind(s) => if At(h, s, Inside) then Move(h, s, Leaving(Lookup(h, h.socks[s].room))) else h
    case LeaveRemove(s) =>
      if s < |h.socks| && h.socks[s].phase.Leaving? then
        match h.socks[s].phase.at
        case Some(o) => Remove(h, s, o)
        case None => Move(h, s, Gone)
      else h
    case LeaveSweep(s) => if At(h, s, Sweeping) then Move(Drop(h, h.socks[s].room), s, Gone) else h
  }

  function Run(h: Hub, steps: seq<Step>): Hub
    decreases |steps|
  {
    if steps == [] then h else Run(Apply(h, steps[0]), steps[1..])
  }

  // --- invariants -----------------------------------------------------------------------

  /** The hub finds this object. */
  predicate Mapped(h: Hub, o: nat) {
    o < |h.objs| && h.objs[o].room in h.rooms && h.rooms[h.objs[o].room] == o
  }

  predicate FindOk(h: Hub, f: Find) {
    f.obj < |h.objs| && h.objs[f.obj].room == f.room
  }

  /** A leave looks its own room up. */
  predicate SockOk(h: Hub, k: Sock) {
    k.phase.Leaving? && k.phase.at.Some? ==> k.phase.at.value < |h.objs| && h.objs[k.phase.at.value].room == k.room
  }

  /** Whoever an object holds is its room's and has not been taken out; they have started to
      leave it only if the hub still finds it. */
  ghost predicate HeldOk(h: Hub, o: nat, u: Id)
    requires o < |h.objs| && u in h.objs[o].clients
  {
    var s := h.objs[o].clients[u];
    && s < |h.socks| && h.socks[s].user == u && h.socks[s].room == h.objs[o].room
    && (h.socks[s].phase == Leaving(Some(o)) ==> Mapped(h, o))
    && (Mapped(h, o) ==> h.socks[s].phase == Inside || h.socks[s].phase == Leaving(Some(o)))
  }

  ghost predicate Inv(h: Hub) {
    && (forall r :: r in h.rooms ==> h.rooms[r] < |h.objs| && h.objs[h.rooms[r]].room == r)
    && (forall f :: 0 <= f < |h.finds| ==> FindOk(h, h.finds[f]))
    && (forall s :: 0 <= s < |h.socks| ==> SockOk(h, h.socks[s]))
    && (forall o, u :: 0 <= o < |h.objs| && u in h.objs[o].clients ==> HeldOk(h, o, u))
  }

  /** The object holds clients that the hub cannot find. */
  predicate Stranded(h: Hub, o: nat) {
    ClientsOf(h, o) != map[] && !Mapped(h, o)
  }

  ghost predicate NoneStranded(h: Hub) {
    forall o :: 0 <= o < |h.objs| ==> !Stranded(h, o)
  }

  /** An insert into an object that the hub has dropped since the lookup. */
  predicate Stale(h: Hub, step: Step) {
    step.JoinInsert? && Pending(h, step.f) && !Mapped(h, h.finds[step.f].obj)
  }

  // --- steps ------------------------------------------------------------------------------

  lemma RoomForKeeps(h: Hub, room: Id)
    requires Inv(h)
    ensures Inv(RoomFor(h, room)) && room in RoomFor(h, room).rooms
    ensures NoneStranded(h) <==> NoneStranded(RoomFor(h, room))
  {
    var h' := RoomFor(h, room);
    assert forall o :: 0 <= o < |h.objs| ==> h'.objs[o] == h.objs[o] && Mapped(h', o) == Mapped(h, o);
    forall o, u | 0 <= o < |h'.objs| && u in h'.objs[o].clients ensures HeldOk(h', o, u) {
      assert HeldOk(h, o, u);
    }
    assert forall o :: 0 <= o < |h.objs| ==> Stranded(h', o) == Stranded(h, o);
    assert forall o :: |h.objs| <= o < |h'.objs| ==> !Stranded(h', o);
    assert forall k :: 0 <= k < |h.socks| ==> SockOk(h, h.socks[k]);
  }

  lemma JoinFindKeeps(h: Hub, room: Id, user: Id)
    requires Inv(h)
    ensures var h' := Apply(h, JoinFind(room, user)); Inv(h') && (NoneStranded(h) <==> NoneStranded(h'))
  {
    RoomForKeeps(h, room);
    var mid, h' := RoomFor(h, room), Apply(h, JoinFind(room, user));
    forall o, u | 0 <= o < |h'.objs| && u in h'.objs[o].clients ensures HeldOk(h', o, u) {
      assert HeldOk(mid, o, u);
    }
    assert forall o :: Stranded(h', o) == Stranded(mid, o);
    assert forall k :: 0 <= k < |mid.socks| ==> SockOk(mid, mid.socks[k]);
  }

  lemma InsertKeeps(h: Hub, f: nat)
    requires Inv(h) && Pending(h, f)
    ensures Inv(Insert(h, f))
  {
    var h', at := Insert(h, f), h.finds[f].obj;
    assert FindOk(h, h.finds[f]);
    assert forall o :: 0 <= o < |h.objs| ==> Mapped(h', o) == Mapped(h, o);
    forall o, u | 0 <= o < |h'.objs| && u in h'.objs[o].clients ensures HeldOk(h', o, u) {
      assert h'.objs[o].room == h.objs[o].room;
      assert o != at || u != h.finds[f].user ==> HeldOk(h, o, u);
    }
    forall k | 0 <= k < |h'.finds| ensures FindOk(h', h'.finds[k]) {
      assert FindOk(h, h.finds[k]);
    }
    forall k | 0 <= k < |h'.socks| ensures SockOk(h', h'.socks[k]) {
      assert k < |h.socks| ==> SockOk(h, h.socks[k]);
    }
  }

  lemma InsertStrandsIff(h: Hub, f: nat)
    requires Inv(h) && Pending(h, f)
    ensures NoneStranded(Insert(h, f)) <==> NoneStranded(h) && !Stale(h, JoinInsert(f))
  {
    var h', at := Insert(h, f), h.finds[f].obj;
    assert FindOk(h, h.finds[f]);
    assert forall o :: 0 <= o < |h.objs| ==> Mapped(h', o) == Mapped(h, o);
    assert forall o :: 0 <= o < |h.objs| && o != at ==> Stranded(h', o) == Stranded(h, o);
    assert h.finds[f].user in ClientsOf(h', at);
    assert Stranded(h', at) == !Mapped(h, at);
    assert Stranded(h, at) ==> !Mapped(h, at);
  }

  /** A socket moves on that no object the hub finds holds, unless it starts to leave. */
  lemma MoveKeeps(h: Hub, s: nat, phase: Phase)
    requires Inv(h) && s < |h.socks|
    requires phase.Leaving? && phase.at.Some? ==>
               Mapped(h, phase.at.value) && h.objs[phase.at.value].room == h.socks[s].room
    requires forall o: nat :: HeldIn(h, s, o) && Mapped(h, o) ==> phase == Leaving(Some(o))
    ensures Inv(Move(h, s, phase)) && (NoneStranded(h) <==> NoneStranded(Move(h, s, phase)))
  {
    var h' := Move(h, s, phase);
    forall o, u | 0 <= o < |h'.objs| && u in h'.objs[o].clients ensures HeldOk(h', o, u) {
      assert HeldOk(h, o, u);
      assert h.objs[o].clients[u] == s ==> HeldIn(h, s, o);
    }
    assert forall o :: Stranded(h', o) == Stranded(h, o);
    assert forall k :: 0 <= k < |h.socks| ==> SockOk(h, h.socks[k]);
  }

  lemma LeaveFindKeeps(h: Hub, s: nat)
    requires Inv(h) && At(h, s, Inside)
    ensures var h' := Apply(h, LeaveFind(s)); Inv(h') && (NoneStranded(h) <==> NoneStranded(h'))
  {
    forall o: nat | HeldIn(h, s, o) && Mapped(h, o) ensures Lookup(h, h.socks[s].room) == Some(o) {
      assert HeldOk(h, o, h.socks[s].user);
    }
    MoveKeeps(h, s, Leaving(Lookup(h, h.socks[s].room)));
  }

  /** Only the object looked up can still hold a leaving socket and be found. */
  lemma LeavingHeld(h: Hub, s: nat, o: nat)
    requires Inv(h) && HeldIn(h, s, o) && Mapped(h, o) && h.socks[s].phase != Inside
    ensures h.socks[s].phase == Leaving(Some(o))
  {
    assert HeldOk(h, o, h.socks[s].user);
  }

  /** Taking a socket out of an object the hub finds. */
  lemma TakeOutKeeps(h: Hub, s: nat, at: nat)
    requires Inv(h) && HeldIn(h, s, at) && h.socks[s].phase == Leaving(Some(at))
    ensures var h' := TakeOut(h, s, at);
            && Inv(h') && (NoneStranded(h) <==> NoneStranded(h'))
            && (forall o: nat :: HeldIn(h', s, o) && Mapped(h', o) ==> false)
  {
    var h' := TakeOut(h, s, at);
    assert HeldOk(h, at, h.socks[s].user) && Mapped(h, at);
    assert forall o :: 0 <= o < |h.objs| ==> Mapped(h', o) == Mapped(h, o);
    forall o, u | 0 <= o < |h'.objs| && u in h'.objs[o].clients ensures HeldOk(h', o, u) {
      assert HeldOk(h, o, u);
    }
    forall k | 0 <= k < |h'.finds| ensures FindOk(h', h'.finds[k]) {
      assert FindOk(h, h.finds[k]);
    }
    forall k | 0 <= k < |h'.socks| ensures SockOk(h', h'.socks[k]) {
      assert k < |h.socks| ==> SockOk(h, h.socks[k]);
    }
    assert forall o :: 0 <= o < |h.objs| ==> Stranded(h', o) == Stranded(h, o);
    forall o: nat | HeldIn(h', s, o) && Mapped(h', o) ensures false {
      LeavingHeld(h, s, o);
    }
  }

  lemma RemoveKeeps(h: Hub, s: nat, at: nat)
    requires Inv(h) && At(h, s, Leaving(Some(at)))
    ensures Inv(Remove(h, s, at)) && (NoneStranded(h) <==> NoneStranded(Remove(h, s, at)))
  {
    if HeldIn(h, s, at) {
      TakeOutKeeps(h, s, at);
      var h' := TakeOut(h, s, at);
      MoveKeeps(h', s, if ClientsOf(h', at) == map[] then Sweeping else Gone);
    } else {
      forall o: nat | HeldIn(h, s, o) && Mapped(h, o) ensures false {
        LeavingHeld(h, s, o);
      }
      MoveKeeps(h, s, if ClientsOf(h, at) == map[] then Sweeping else Gone);
    }
  }

  /** A socket past its removal, or one that found no room to leave, is in no room. */
  lemma LeaveOn(h: Hub, s: nat)
    requires Inv(h) && (At(h, s, Sweeping) || At(h, s, Leaving(None)))
    ensures Inv(Move(h, s, Gone)) && (NoneStranded(h) <==> NoneStranded(Move(h, s, Gone)))
  {
    forall o: nat | HeldIn(h, s, o) && Mapped(h, o) ensures false {
      LeavingHeld(h, s, o);
    }
    MoveKeeps(h, s, Gone);
  }

  /** The re-check: only an empty object is dropped. */
  lemma DropKeeps(h: Hub, room: Id)
    requires Inv(h)
    ensures Inv(Drop(h, room)) && (NoneStranded(h) <==> NoneStranded(Drop(h, room)))
  {
    var h' := Drop(h, room);
    if h' != h {
      assert forall o :: Mapped(h', o) <==> Mapped(h, o) && o != h.rooms[room];
      forall o, u | 0 <= o < |h'.objs| && u in h'.objs[o].clients ensures HeldOk(h', o, u) {
        assert HeldOk(h, o, u);
      }
      assert forall k :: 0 <= k < |h.finds| ==> FindOk(h, h.finds[k]);
      assert forall k :: 0 <= k < |h.socks| ==> SockOk(h, h.socks[k]);
      assert forall o :: 0 <= o < |h.objs| ==> Stranded(h', o) == Stranded(h, o);
    }
  }

  lemma StepKeeps(h: Hub, step: Step)
    requires Inv(h)
    ensures Inv(Apply(h, step))
    ensures NoneStranded(Apply(h, step)) <==> NoneStranded(h) && !Stale(h, step)
  {
    match step
    case FindRoom(s) => if At(h, s, Inside) { RoomForKeeps(h, h.socks[s].room); }
    case JoinFind(room, user) => JoinFindKeeps(h, room, user);
    case JoinInsert(f) =>
      if Pending(h, f) {
        InsertKeeps(h, f);
        InsertStrandsIff(h, f);
      }
    case LeaveFind(s) => if At(h, s, Inside) { LeaveFindKeeps(h, s); }
    case LeaveRemove(s) =>
      if s < |h.socks| && h.socks[s].phase.Leaving? {
        if h.socks[s].phase.at.Some? {
          RemoveKeeps(h, s, h.socks[s].phase.at.value);
        } else {
          LeaveOn(h, s);
        }
      }
    case LeaveSweep(s) =>
      if At(h, s, Sweeping) {
        DropKeeps(h, h.socks[s].room);
        LeaveOn(Drop(h, h.socks[s].room), s);
      }
  }

  // --- runs ----------------------------------------------------------------------------------

  ghost predicate EverStale(h: Hub, steps: seq<Step>)
    decreases |steps|
  {
    steps != [] && (Stale(h, steps[0]) || EverStale(Apply(h, steps[0]), steps[1..]))
  }

  lemma {:induction false} RunStrandsIff(h: Hub, steps: seq<Step>)
    requires Inv(h)
    ensures Inv(Run(h, steps))
    ensures NoneStranded(Run(h, steps)) <==> NoneStranded(h) && !EverStale(h, steps)
    decreases |steps|
  {
    if steps != [] {
      StepKeeps(h, steps[0]);
      RunStrandsIff(Apply(h, steps[0]), steps[1..]);
    }
  }

  /** Over every interleaving, all clients stay where the hub finds them if and only if no
      join inserts into an object dropped since its lookup; one that does is never
      repaired. */
  lemma ClientsReachableIff(steps: seq<Step>)
    ensures NoneStranded(Run(INIT, steps)) <==> !EverStale(INIT, steps)
  {
    RunStrandsIff(INIT, steps);
  }

  /** A join whose two halves are not separated is never stale. */
  lemma AtomicJoinIsFresh(h: Hub, room: Id, user: Id)
    requires Inv(h)
    ensures !Stale(Apply(h, JoinFind(room, user)), JoinInsert(|h.finds|))
  {
    RoomForKeeps(h, room);
  }

  lemma RunCons(h: Hub, step: Step, rest: seq<Step>)
    ensures Run(h, [step] + rest) == Run(Apply(h, step), rest)
  {
    assert ([step] + rest)[1..] == rest;
  }

  /** The last member of a room has left it and is about to sweep. */
  function Emptied(room: Id, ann: Id): Hub {
    Hub(map[room := 0], [Obj(room, map[])], [Find(room, ann, 0, true)], [Sock(room, ann, Sweeping)],
        [H.Transition(room, ann, true), H.Transition(room, ann, false)])
  }

  lemma EmptiedRun(room: Id, ann: Id, rest: seq<Step>)
    ensures Run(INIT, [JoinFind(room, ann)] + ([JoinInsert(0)] + ([LeaveFind(0)] + ([LeaveRemove(0)] + rest))))
            == Run(Emptied(room, ann), rest)
  {
    var found := Hub(map[room := 0], [Obj(room, map[])], [Find(room, ann, 0, false)], [], []);
    var joined := Hub(map[room := 0], [Obj(room, map[ann := 0])], [Find(room, ann, 0, true)],
                      [Sock(room, ann, Inside)], [H.Transition(room, ann, true)]);
    var leaving := joined.(socks := [Sock(room, ann, Leaving(Some(0)))]);
    assert Apply(INIT, JoinFind(room, ann)) == found;
    assert Apply(found, JoinInsert(0)) == joined;
    assert Apply(joined, LeaveFind(0)) == leaving;
    assert map[ann := 0] - {ann} == map[];
    assert Apply(leaving, LeaveRemove(0)) == Emptied(room, ann);
    RunCons(leaving, LeaveRemove(0), rest);
    RunCons(joined, LeaveFind(0), [LeaveRemove(0)] + rest);
    RunCons(found, JoinInsert(0), [LeaveFind(0)] + ([LeaveRemove(0)] + rest));
    RunCons(INIT, JoinFind(room, ann), [JoinInsert(0)] + ([LeaveFind(0)] + ([LeaveRemove(0)] + rest)));
  }

  /** The run that strands a client: it looks up the object the last member is leaving,
      and inserts after the sweep. */
  lemma SweepBetweenStrands(room: Id, ann: Id, bob: Id)
    ensures !NoneStranded(Run(INIT,
              [JoinFind(room, ann)] + ([JoinInsert(0)] + ([LeaveFind(0)] + ([LeaveRemove(0)]
              + ([JoinFind(room, bob)] + ([LeaveSweep(0)] + ([JoinInsert(1)] + []))))))))
  {
    var emptied := Emptied(room, ann);
    var found := emptied.(finds := [Find(room, ann, 0, true), Find(room, bob, 0, false)]);
    var swept := found.(rooms := map[], socks := [Sock(room, ann, Gone)]);
    EmptiedRun(room, ann, [JoinFind(room, bob)] + ([LeaveSweep(0)] + ([JoinInsert(1)] + [])));
    assert Apply(emptied, JoinFind(room, bob)) == found;
    assert map[room := 0] - {room} == map[];
    assert Apply(found, LeaveSweep(0)) == swept;
    RunCons(emptied, JoinFind(room, bob), [LeaveSweep(0)] + ([JoinInsert(1)] + []));
    RunCons(found, LeaveSweep(0), [JoinInsert(1)] + []);
    RunCons(swept, JoinInsert(1), []);
    assert Stale(swept, JoinInsert(1));
    InsertStrandsIff(swept, 1);
  }
}
