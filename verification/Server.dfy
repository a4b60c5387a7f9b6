/** The running server: the store, the hub and the handlers between them. Its state is
    always that of a run of `World`, so what is proved of runs holds of it. */
module Server {
  import opened Types
  import opened Frames
  import T = Tables
  import TI = TableInvariants
  import H = HubModel
  import R = Replica
  import C = ClientModel
  import W = World
  import B = Belonging
  import O = OpenSockets
  import opened RealtimeImpl
  import opened RoomStore
  import opened RoomService
  import opened HubImpl
  import opened Announcements

  // --- what a request does, without the lists ----------------------------------------------

  lemma OneCall(sys: H.Sys, a: R.Action)
    ensures R.PerformAll(sys, [a]) == R.Perform(sys, a)
  {
    assert [a][1..] == [];
  }

  lemma TwoCalls(sys: H.Sys, a: R.Action, b: R.Action)
    ensures R.PerformAll(sys, [a, b]) == R.Perform(R.Perform(sys, a), b)
  {
    OneCall(R.Perform(sys, a), b);
    assert [a, b][1..] == [b];
  }

  /** The world once a request and its calls are done. */
  ghost function Served(w: W.World, req: T.Request): W.World {
    w.(db := T.Handle(w.db, req).db, sys := R.PerformAll(w.sys, W.HubCalls(w.db, req)))
  }

  function FirstCalls(n: nat): seq<W.Event> {
    if n == 0 then [] else [W.Call(0)] + FirstCalls(n - 1)
  }

  /** The calls owed, made in order. */
  lemma {:induction false} CallsRun(w: W.World)
    ensures W.Run(w, FirstCalls(|w.calls|)) == w.(sys := R.PerformAll(w.sys, w.calls), calls := [])
    decreases |w.calls|
  {
    if w.calls != [] {
      var next := W.Next(w, W.Call(0));
      assert next.calls == w.calls[1..];
      assert FirstCalls(|w.calls|)[1..] == FirstCalls(|next.calls|);
      CallsRun(next);
    }
  }

  ghost function RequestEvents(w: W.World, req: T.Request): seq<W.Event> {
    [W.Rest(req)] + FirstCalls(|W.HubCalls(w.db, req)|)
  }

  lemma RequestRun(w: W.World, req: T.Request)
    requires w.calls == []
    ensures W.Run(w, RequestEvents(w, req)) == Served(w, req)
  {
    var next := W.Next(w, W.Rest(req));
    assert next.calls == W.HubCalls(w.db, req);
    assert RequestEvents(w, req)[1..] == FirstCalls(|next.calls|);
    CallsRun(next);
  }

  /** The hub after a membership request that went through. */
  ghost function AfterMembership(w: W.World, user: Id, op: T.MembershipOp): H.Sys {
    match op
    case JoinOp(code, _) =>
      (match T.RoomByCode(w.db, code)
       case Some(room) => R.Tell(w.sys, room, MemberJoined(user), None)
       case None => w.sys)
    case LeaveOp(room, _) => R.PerformLeaveRoom(w.sys, room, user)
    case KickOp(room, target, _) => R.PerformKick(w.sys, room, target, user)
    case EndOp(room, _) => R.PerformEnd(w.sys, room)
    case TransferOp(room, _, _) => R.Tell(w.sys, room, Info("owner_changed"), None)
    case _ => w.sys
  }

  lemma MembershipServed(w: W.World, user: Id, op: T.MembershipOp)
    requires T.LoadsUser(w.db.users, user)
    ensures var o := T.ServeMembership(w.db, user, op);
            Served(w, T.Membership(user, op)) ==
            w.(db := o.db, sys := if o.reply == T.Ok then AfterMembership(w, user, op) else w.sys)
  {
    match op
    case JoinOp(code, _) =>
      if T.RoomByCode(w.db, code).Some? {
        OneCall(w.sys, R.Notify(T.RoomByCode(w.db, code).value, MemberJoined(user), None));
      }
    case LeaveOp(room, _) => OneCall(w.sys, R.LeaveRoom(room, user));
    case KickOp(room, target, _) => OneCall(w.sys, R.KickUser(room, target, user));
    case EndOp(room, _) => OneCall(w.sys, R.EndRoom(room));
    case TransferOp(room, _, _) => OneCall(w.sys, R.Notify(room, Info("owner_changed"), None));
    case CreateOp(_, _, _) =>
    case DeleteAccountOp(_) =>
  }

  lemma RouteServed(w: W.World, user: Id, room: Id, op: T.RouteOp)
    requires T.LoadsUser(w.db.users, user)
    ensures var o := T.ServeRoute(w.db, user, room, op);
            Served(w, T.Route(user, room, op)) ==
            w.(db := o.db, sys := if o.reply == T.Ok then Announced(w.sys, room, user, op) else w.sys)
  {
    match op
    case RenameOp(_) => OneCall(w.sys, R.Notify(room, Info("room_renamed"), None));
    case SetDestOp(_, _, _, _, _) => OneCall(w.sys, R.Notify(room, Info("destination"), None));
    case EditDestOp(_, _) => OneCall(w.sys, R.Notify(room, Info("destination"), None));
    case ClearDestOp =>
      TwoCalls(w.sys, R.Notify(room, Info("destination"), None), R.Notify(room, Info("stops"), None));
    case PostOp(_, _, _) => OneCall(w.sys, R.Notify(room, Info("chat"), Some(user)));
    case _ => OneCall(w.sys, R.Notify(room, Info("stops"), None));
  }

  /** Who is told what by a membership request that went through. */
  ghost predicate MembershipTold(w: W.World, sys': H.Sys, user: Id, op: T.MembershipOp) {
    match op
    case JoinOp(code, _) =>
      exists room :: T.HoldsCode(w.db.rooms, room, code) && Said(w.sys, sys', room, MemberJoined(user), None)
    case LeaveOp(room, _) => sys' == R.PerformLeaveRoom(w.sys, room, user)
    case KickOp(room, target, _) => sys' == R.PerformKick(w.sys, room, target, user)
    case EndOp(room, _) => sys' == R.PerformEnd(w.sys, room)
    case TransferOp(room, _, _) => Said(w.sys, sys', room, Info("owner_changed"), None)
    case _ => sys' == w.sys
  }

  lemma MembershipTells(w: W.World, user: Id, op: T.MembershipOp)
    requires T.LoadsUser(w.db.users, user) && T.ServeMembership(w.db, user, op).reply == T.Ok
    ensures MembershipTold(w, Served(w, T.Membership(user, op)).sys, user, op)
  {
    MembershipServed(w, user, op);
    match op
    case JoinOp(code, _) =>
      assert T.RoomByCode(w.db, code).Some?;
      TellSays(w.sys, T.RoomByCode(w.db, code).value, MemberJoined(user), None);
    case TransferOp(room, _, _) => TellSays(w.sys, room, Info("owner_changed"), None);
    case _ =>
  }

  /** Who is told what by an edit that went through: everybody in the room, except that the
      author of a message is not; private markers are told to nobody. */
  ghost predicate EditTold(sys: H.Sys, sys': H.Sys, room: Id, user: Id, op: T.RouteOp) {
    match op
    case RenameOp(_) => Said(sys, sys', room, Info("room_renamed"), None)
    case SetDestOp(_, _, _, _, _) => Said(sys, sys', room, Info("destination"), None)
    case EditDestOp(_, _) => Said(sys, sys', room, Info("destination"), None)
    case ClearDestOp =>
      exists mid :: Said(sys, mid, room, Info("destination"), None) && mid.rooms == sys.rooms
                    && Said(mid, sys', room, Info("stops"), None)
    case PostOp(_, _, _) => Said(sys, sys', room, Info("chat"), Some(user))
    case SetMarkerOp(_, _, _, _) => sys' == sys
    case ClearMarkerOp => sys' == sys
    case _ => Said(sys, sys', room, Info("stops"), None)
  }

  lemma EditTells(w: W.World, user: Id, room: Id, op: T.RouteOp)
    requires T.LoadsUser(w.db.users, user) && T.ServeRoute(w.db, user, room, op).reply == T.Ok
    ensures EditTold(w.sys, Served(w, T.Route(user, room, op)).sys, room, user, op)
  {
    RouteServed(w, user, room, op);
    match op
    case SetMarkerOp(_, _, _, _) =>
    case ClearMarkerOp =>
    case RenameOp(_) => TellSays(w.sys, room, Info("room_renamed"), None);
    case SetDestOp(_, _, _, _, _) => TellSays(w.sys, room, Info("destination"), None);
    case EditDestOp(_, _) => TellSays(w.sys, room, Info("destination"), None);
    case ClearDestOp =>
      TellSays(w.sys, room, Info("destination"), None);
      TellSays(R.Tell(w.sys, room, Info("destination"), None), room, Info("stops"), None);
    case PostOp(_, _, _) => TellSays(w.sys, room, Info("chat"), Some(user));
    case _ => TellSays(w.sys, room, Info("stops"), None);
  }

  // --- runs ------------------------------------------------------------------------------------

  lemma {:induction false} RunAppend(w: W.World, a: seq<W.Event>, b: seq<W.Event>)
    ensures W.Run(w, a + b) == W.Run(W.Run(w, a), b)
    decreases |a|
  {
    if a == [] {
      assert a + b == b;
    } else {
      assert (a + b)[0] == a[0] && (a + b)[1..] == a[1..] + b;
      RunAppend(W.Next(w, a[0]), a[1..], b);
    }
  }

  function AsEvents(steps: seq<H.Step>): (events: seq<W.Event>)
    ensures |events| == |steps|
  {
    if steps == [] then [] else [W.Hub(steps[0])] + AsEvents(steps[1..])
  }

  /** Hub steps run as events of the world. */
  lemma {:induction false} HubRun(w: W.World, steps: seq<H.Step>)
    requires forall i :: 0 <= i < |steps| ==> !steps[i].DoJoin?
    ensures W.Run(w, AsEvents(steps)) == w.(sys := H.Run(w.sys, steps))
    decreases |steps|
  {
    if steps != [] {
      assert AsEvents(steps)[1..] == AsEvents(steps[1..]);
      HubRun(W.Next(w, W.Hub(steps[0])), steps[1..]);
    }
  }

  /** An action other than a connect is a run of events. */
  lemma ActionRun(w: W.World, a: R.Action)
    requires !a.Connect?
    ensures W.Run(w, AsEvents(R.Plan(w.sys, a))) == w.(sys := R.Perform(w.sys, a))
  {
    R.ActionIsRun(w.sys, a);
    O.OnlyConnectJoins(w.sys, a);
    HubRun(w, R.Plan(w.sys, a));
  }

  /** A handler that joins: the join, then the hub steps of the greeting. */
  ghost function JoinEvents(w: W.World, h: nat, ok: bool): seq<W.Event>
    requires h < |w.handlers|
  {
    var plan := R.Plan(w.sys, R.Connect(w.handlers[h].room, w.handlers[h].user, ok));
    [W.Enter(h)] + AsEvents(plan[1..])
  }

  function Joined(w: W.World, h: nat, ok: bool): W.World
    requires h < |w.handlers|
  {
    W.Move(w, h, W.Entered(|w.sys.socks|)).(
      sys := R.PerformConnect(w.sys, w.handlers[h].room, w.handlers[h].user, ok))
  }

  lemma JoinRun(w: W.World, h: nat, ok: bool)
    requires W.At(w, h, W.UserLoaded)
    ensures W.Run(w, JoinEvents(w, h, ok)) == Joined(w, h, ok)
  {
    var a := R.Connect(w.handlers[h].room, w.handlers[h].user, ok);
    var plan := R.Plan(w.sys, a);
    R.ActionIsRun(w.sys, a);
    HubRun(W.Next(w, W.Enter(h)), plan[1..]);
    assert JoinEvents(w, h, ok)[1..] == AsEvents(plan[1..]);
  }

  /** Events of one socket's client as hub steps. */
  function OnOne(s: nat, events: seq<C.ClientStep>): seq<H.Step> {
    if events == [] then [] else [H.DoClient(s, events[0])] + OnOne(s, events[1..])
  }

  function ClientRan(sys: H.Sys, s: nat, events: seq<C.ClientStep>): H.Sys
    requires s < |sys.socks|
  {
    sys.(socks := sys.socks[s := sys.socks[s].(client := C.Run(sys.socks[s].client, events))])
  }

  lemma {:induction false} OnOneRuns(sys: H.Sys, s: nat, events: seq<C.ClientStep>)
    requires s < |sys.socks|
    ensures H.Run(sys, OnOne(s, events)) == ClientRan(sys, s, events)
    ensures forall i :: 0 <= i < |OnOne(s, events)| ==> !OnOne(s, events)[i].DoJoin?
    decreases |events|
  {
    if events != [] {
      assert OnOne(s, events)[1..] == OnOne(s, events[1..]);
      OnOneRuns(H.Apply(sys, H.DoClient(s, events[0])), s, events[1..]);
    }
  }

  /** One turn of a registered socket's writer. */
  method WriterTurn(hub: Hub, c: Client, pick: Pick, wrote: nat -> bool) returns (returned: bool)
    requires hub.Valid() && c in hub.socks
    requires C.Inv(c.state) && c.state.pump == C.Running && c.state.inFlight == []
    modifies hub`sys, c
    ensures hub.Valid() && c.id < |old(hub.sys).socks|
    ensures hub.sys == ClientRan(old(hub.sys), c.id, SelectSteps(old(c.state), pick, wrote))
  {
    ghost var steps := SelectSteps(c.state, pick, wrote);
    returned := c.Select(pick, wrote);
    hub.sys := ClientRan(hub.sys, c.id, steps);
  }

  class Server {
    const store: Store
    const hub: Hub
    const service: Service
    ghost var handlers: seq<W.Handler>
    ghost var events: seq<W.Event>

    ghost function World(): W.World
      reads this, store, hub
    {
      W.World(store.Db(), hub.sys, handlers, [])
    }

    /** The state is the one the recorded events lead to. */
    ghost predicate Valid()
      reads this, store, hub, hub.socks
    {
      && service.store == store && service.hub == hub
      && hub.Valid()
      && World() == W.Run(W.INIT, events)
    }

    constructor ()
      ensures Valid() && events == [] && fresh(store) && fresh(hub) && fresh(service)
    {
      var s := new Store();
      var h := new Hub();
      store, hub := s, h;
      service := new Service(s, h);
      handlers, events := [], [];
    }

    lemma Invariants()
      requires Valid()
      ensures W.Inv(World()) && W.Linked(World())
    {
      W.InitInv();
      W.RunKeeps(W.INIT, events);
    }

    /** Records what has just happened. */
    ghost method Log(more: seq<W.Event>)
      requires service.store == store && service.hub == hub && hub.Valid()
      requires World() == W.Run(W.Run(W.INIT, events), more)
      modifies this`events
      ensures Valid() && events == old(events) + more
    {
      RunAppend(W.INIT, events, more);
      events := events + more;
    }

    ghost method LogRequest(req: T.Request, was: W.World)
      requires service.store == store && service.hub == hub && hub.Valid()
      requires was == W.Run(W.INIT, events) && was.calls == [] && World() == Served(was, req)
      modifies this`events
      ensures Valid() && events == old(events) + RequestEvents(was, req)
    {
      RequestRun(was, req);
      Log(RequestEvents(was, req));
    }

    ghost method LogOne(e: W.Event)
      requires service.store == store && service.hub == hub && hub.Valid()
      requires World() == W.Next(W.Run(W.INIT, events), e)
      modifies this`events
      ensures Valid() && events == old(events) + [e]
    {
      assert [e][1..] == [];
      Log([e]);
    }

    method Membership(user: Id, op: T.MembershipOp) returns (reply: T.Reply)
      requires service.store == store && service.hub == hub && hub.Valid() && TI.Inv(store.Db())
      modifies store, hub`sys, hub.socks
      ensures hub.Valid() && T.Outcome(store.Db(), reply) == T.ServeMembership(old(store.Db()), user, op)
      ensures hub.sys == if reply == T.Ok then AfterMembership(old(World()), user, op) else old(hub.sys)
    {
      match op {
        case CreateOp(draws, name, now) => reply := service.Create(user, draws, name, now);
        case JoinOp(code, now) => reply := service.Join(user, code, now);
        case LeaveOp(room, now) => reply := service.Leave(room, user, now);
        case KickOp(room, target, now) => reply := service.Kick(room, user, target, now);
        case EndOp(room, now) => reply := service.End(room, user, now);
        case TransferOp(room, target, now) => reply := service.TransferOwnership(room, user, target, now);
        case DeleteAccountOp(now) =>
          var ok := store.SoftDelete(user, now, 3, true);
          reply := T.Ok;
      }
    }

    /** The middleware, then the handler. */
    method ServeMembership(user: Id, op: T.MembershipOp) returns (reply: T.Reply)
      requires Valid()
      modifies this`events, store, hub`sys, hub.socks
      ensures Valid() && events == old(events) + RequestEvents(old(World()), T.Membership(user, op))
      ensures World() == Served(old(World()), T.Membership(user, op))
      ensures reply == T.Handle(old(World()).db, T.Membership(user, op)).reply
    {
      Invariants();
      ghost var was := World();
      if !T.LoadsUser(store.users, user) {
        reply := T.Unauthorized;
      } else {
        MembershipServed(was, user, op);
        reply := Membership(user, op);
      }
      LogRequest(T.Membership(user, op), was);
    }

    method ServeRoute(user: Id, room: Id, op: T.RouteOp) returns (reply: T.Reply)
      requires Valid()
      modifies this`events, store, hub`sys, hub.socks
      ensures Valid() && events == old(events) + RequestEvents(old(World()), T.Route(user, room, op))
      ensures World() == Served(old(World()), T.Route(user, room, op))
      ensures reply == T.Handle(old(World()).db, T.Route(user, room, op)).reply
    {
      ghost var was := World();
      if !T.LoadsUser(store.users, user) {
        reply := T.Unauthorized;
      } else {
        RouteServed(was, user, room, op);
        reply := service.Edit(room, user, op);
      }
      LogRequest(T.Route(user, room, op), was);
    }

    method Account(op: T.AccountOp) returns (reply: T.Reply)
      modifies store
      ensures T.Outcome(store.Db(), reply) == T.ServeAccount(old(store.Db()), op)
    {
      match op {
        case GuestOp(id) =>
          if id in store.users {
            reply := T.Failed;
          } else {
            store.users := store.users[id := T.UserRow(None, None)];
            reply := T.Ok;
          }
        case SignInOp(provider, subject, id, email) =>
          var ok := store.UpsertOAuthUser(provider, subject, id, email);
          reply := if ok then T.Ok else T.Failed;
        case AdminDeleteOp(user, now) =>
          var ok := store.SoftDelete(user, now, 3, false);
          reply := T.Ok;
        case RestoreOp(user) =>
          store.Restore(user);
          reply := T.Ok;
        case HardDeleteOp(user) => reply := store.HardDelete(user);
      }
    }

    /** Sign-in and the dashboard. */
    method ServeAccount(op: T.AccountOp) returns (reply: T.Reply)
      requires Valid()
      modifies this`events, store
      ensures Valid() && events == old(events) + RequestEvents(old(World()), T.Account(op))
      ensures World() == Served(old(World()), T.Account(op))
      ensures reply == T.Handle(old(World()).db, T.Account(op)).reply
    {
      ghost var was := World();
      reply := Account(op);
      LogRequest(T.Account(op), was);
    }

    /** The handler is at this phase, for this user and room. */
    ghost predicate Handles(h: nat, room: Id, user: Id, phase: W.Phase)
      reads this
    {
      h < |handlers| && handlers[h] == W.Handler(room, user, phase)
    }

    /** A websocket handler starts: the room is there and has not ended. */
    method Arrive(room: Id, user: Id) returns (ok: bool, ghost h: nat)
      requires Valid()
      modifies this`handlers, this`events
      ensures Valid() && events == old(events) + [W.Arrive(room, user)]
      ensures ok == T.RoomActive(store.rooms, room)
      ensures ok ==> Handles(h, room, user, W.RoomChecked)
    {
      ok := room in store.rooms && store.rooms[room].endedAt.None?;
      h := |handlers|;
      if ok {
        handlers := handlers + [W.Handler(room, user, W.RoomChecked)];
      }
      LogOne(W.Arrive(room, user));
    }

    method CheckMember(room: Id, user: Id, ghost h: nat) returns (ok: bool)
      requires Valid() && Handles(h, room, user, W.RoomChecked)
      modifies this`handlers, this`events
      ensures Valid() && events == old(events) + [W.CheckMember(h)]
      ensures ok == T.ActiveMember(store.members, room, user)
      ensures Handles(h, room, user, if ok then W.MemberChecked else W.Refused)
    {
      var role := store.ActiveMembership(room, user);
      ok := role.Some?;
      handlers := handlers[h := handlers[h].(phase := if ok then W.MemberChecked else W.Refused)];
      LogOne(W.CheckMember(h));
    }

    method LoadUser(room: Id, user: Id, ghost h: nat) returns (ok: bool)
      requires Valid() && Handles(h, room, user, W.MemberChecked)
      modifies this`handlers, this`events
      ensures Valid() && events == old(events) + [W.LoadUser(h)]
      ensures ok == T.LoadsUser(store.users, user)
      ensures Handles(h, room, user, if ok then W.UserLoaded else W.Refused)
    {
      ok := user in store.users && store.users[user].deletedAt.None?;
      handlers := handlers[h := handlers[h].(phase := if ok then W.UserLoaded else W.Refused)];
      LogOne(W.LoadUser(h));
    }

    method JoinHub(room: Id, user: Id, snapshotOk: bool, ghost h: nat) returns (c: Client)
      requires hub.Valid() && Handles(h, room, user, W.UserLoaded)
      modifies this`handlers, hub, hub.socks
      ensures hub.Valid() && h < |old(World()).handlers| && World() == Joined(old(World()), h, snapshotOk)
      ensures fresh(c) && hub.socks == old(hub.socks) + [c]
    {
      handlers := handlers[h := handlers[h].(phase := W.Entered(|hub.sys.socks|))];
      c := HubImpl.Connect(hub, room, user, snapshotOk);
    }

    /** The handler, its checks behind it, joins, sends the snapshot and announces. */
    method Enter(room: Id, user: Id, snapshotOk: bool, ghost h: nat) returns (c: Client)
      requires Valid() && Handles(h, room, user, W.UserLoaded)
      modifies this`handlers, this`events, hub, hub.socks
      ensures Valid() && h < |old(World()).handlers| && World() == Joined(old(World()), h, snapshotOk)
      ensures fresh(c) && hub.socks == old(hub.socks) + [c]
    {
      ghost var w := World();
      JoinRun(w, h, snapshotOk);
      c := JoinHub(room, user, snapshotOk, h);
      Log(JoinEvents(w, h, snapshotOk));
    }

    method Dispatched(c: Client, msg: ClientMessage)
      requires Valid() && c in hub.socks && H.IsLive(hub.sys, c.id)
      modifies this`events, hub`rooms, hub`sys, hub.socks
      ensures Valid() && World() == old(World()).(sys := R.Perform(old(hub.sys), ActionOf(c.id, msg)))
    {
      ghost var w := World();
      ActionRun(w, ActionOf(c.id, msg));
      Dispatch(hub, c, msg);
      Log(AsEvents(R.Plan(w.sys, ActionOf(c.id, msg))));
    }

    /** A frame arrives in the read loop. */
    method Receive(c: Client, msg: ClientMessage)
      requires Valid() && c in hub.socks && H.IsLive(hub.sys, c.id)
      modifies this`events, hub`rooms, hub`sys, hub.socks
      ensures Valid() && World() == old(World()).(sys := R.Perform(old(hub.sys), ActionOf(c.id, msg)))
      ensures c.id < |old(hub.sys).socks| && Handled(old(hub.sys), hub.sys, c.id, msg)
    {
      MessageHandled(hub.sys, c.id, msg);
      Dispatched(c, msg);
    }

    /** One turn of a socket's writer. */
    method Write(c: Client, pick: Pick, wrote: nat -> bool) returns (returned: bool)
      requires Valid() && c in hub.socks && c.state.pump == C.Running && c.state.inFlight == []
      modifies this`events, hub`sys, c
      ensures Valid() && store.Db() == old(store.Db())
      ensures hub.sys == H.Run(old(hub.sys), OnOne(c.id, SelectSteps(old(c.state), pick, wrote)))
    {
      Invariants();
      ghost var w := World();
      ghost var steps := SelectSteps(c.state, pick, wrote);
      assert C.Inv(w.sys.socks[c.id].client);
      OnOneRuns(w.sys, c.id, steps);
      HubRun(w, OnOne(c.id, steps));
      returned := WriterTurn(hub, c, pick, wrote);
      Log(AsEvents(OnOne(c.id, steps)));
    }

    /** The read loop ends: leave and announce. */
    method Hangup(c: Client)
      requires Valid() && c in hub.socks && H.IsLive(hub.sys, c.id)
      modifies this`events, hub`rooms, hub`sys, hub.socks
      ensures Valid() && World() == old(World()).(sys := R.Perform(old(hub.sys), R.Disconnect(c.id)))
    {
      ghost var w := World();
      ActionRun(w, R.Disconnect(c.id));
      Disconnect(hub, c);
      Log(AsEvents(R.Plan(w.sys, R.Disconnect(c.id))));
    }

    /** In every state the server can be in, an open socket the hub holds came from a
        handler and is an active member's of a room that has not ended, unless what the
        handler had checked was undone before its join, or an account deleted since. */
    lemma SocketsBelong(c: Client) returns (h: nat)
      requires Valid() && c in hub.socks && H.Current(hub.sys, c.id) && !c.closed
      ensures W.At(World(), h, W.Entered(c.id)) && handlers[h].room == c.roomID && handlers[h].user == c.user
      ensures B.Ousted(W.INIT, events, h)
              || (T.RoomActive(store.rooms, c.roomID) && T.ActiveMember(store.members, c.roomID, c.user))
    {
      h := B.OpenSocketsBelong(events, c.id);
    }
  }
}
