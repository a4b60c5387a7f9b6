/** Who belongs where they are connected. On every run of `World` an open socket belongs to
    an active member of a room that has not ended, unless somebody was put out between the
    handler's checks and its join, or an account deletion is to blame. */
module Belonging {
  import opened Types
  import T = Tables
  import H = HubModel
  import R = Replica
  import opened World
  import opened OpenSockets

  // --- who belongs --------------------------------------------------------------------------

  /** A call that ends the connection is on its way. */
  ghost predicate Due(calls: seq<R.Action>, room: Id, user: Id) {
    exists k :: 0 <= k < |calls| && Ends(calls[k], room, user)
  }

  ghost predicate Belongs(w: World, room: Id, user: Id) {
    MayBeThere(w.db, room, user) || Due(w.calls, room, user)
  }

  /** What holds for a handler as long as nobody ousts its user: what it has checked, and
      once joined, that its socket belongs while open. */
  ghost predicate HandlerOk(w: World, h: nat)
    requires h < |w.handlers|
  {
    var room, user := w.handlers[h].room, w.handlers[h].user;
    match w.handlers[h].phase
    case RoomChecked => T.RoomActive(w.db.rooms, room)
    case MemberChecked => MayBeThere(w.db, room, user)
    case UserLoaded => MayBeThere(w.db, room, user)
    case Entered(s) => OpenSock(w.sys, s) ==> Belongs(w, room, user)
    case Refused => true
  }

  /** The event undoes what the handler has checked so far: before the membership check,
      the end of the room; before the join, anything that puts the user out; after it, only
      a deletion, since the rest reaches the hub. */
  ghost predicate Ousts(w: World, e: Event, h: nat)
    requires h < |w.handlers|
  {
    var room, user := w.handlers[h].room, w.handlers[h].user;
    match w.handlers[h].phase
    case RoomChecked => Closes(w.db, e, room)
    case Entered(_) => Blamed(w.db, e, room, user)
    case Refused => false
    case _ => Blamed(w.db, e, room, user) || (e.Rest? && Removes(w.db, e.req, room, user))
  }

  lemma RestOk(w: World, req: T.Request, h: nat)
    requires Inv(w) && h < |w.handlers| && HandlerOk(w, h) && !Ousts(w, Rest(req), h)
    ensures HandlerOk(Next(w, Rest(req)), h)
  {
    var room, user := w.handlers[h].room, w.handlers[h].user;
    match w.handlers[h].phase
    case RoomChecked => RoomStays(w.db, req, room);
    case Refused =>
    case Entered(s) => if OpenSock(w.sys, s) { StillBelongs(w, req, room, user); }
    case _ => RequestStays(w.db, req, room, user);
  }

  lemma StillBelongs(w: World, req: T.Request, room: Id, user: Id)
    requires Belongs(w, room, user) && !Blamed(w.db, Rest(req), room, user)
    ensures Belongs(Next(w, Rest(req)), room, user)
  {
    var calls := HubCalls(w.db, req);
    DueStays(w.calls, calls, room, user);
    if Removes(w.db, req, room, user) {
      RemovalCalls(w.db, req, room, user);
      assert (w.calls + calls)[|w.calls|] == calls[0];
    } else if MayBeThere(w.db, room, user) {
      RequestStays(w.db, req, room, user);
    }
  }

  lemma DueStays(calls: seq<R.Action>, more: seq<R.Action>, room: Id, user: Id)
    ensures Due(calls, room, user) ==> Due(calls + more, room, user)
  {
    if k :| 0 <= k < |calls| && Ends(calls[k], room, user) {
      assert (calls + more)[k] == calls[k];
    }
  }

  lemma DueWithout(calls: seq<R.Action>, k: nat, room: Id, user: Id)
    requires k < |calls| && Due(calls, room, user) && !Ends(calls[k], room, user)
    ensures Due(Without(calls, k), room, user)
  {
    var j :| 0 <= j < |calls| && Ends(calls[j], room, user);
    assert Without(calls, k)[if j < k then j else j - 1] == calls[j];
  }

  lemma CallOk(w: World, k: nat, h: nat)
    requires Inv(w) && Linked(w) && h < |w.handlers| && HandlerOk(w, h) && k < |w.calls|
    ensures HandlerOk(Next(w, Call(k)), h)
  {
    var room, user := w.handlers[h].room, w.handlers[h].user;
    assert HandlerFits(w, h);
    if w.handlers[h].phase.Entered? && OpenSock(Next(w, Call(k)).sys, w.handlers[h].phase.s) {
      CallOpens(w.sys, w.calls[k], w.handlers[h].phase.s);
      if Due(w.calls, room, user) {
        DueWithout(w.calls, k, room, user);
      }
    }
  }

  lemma HubOk(w: World, sys: H.Sys, h: nat)
    requires h < |w.handlers| && HandlerOk(w, h)
    requires w.handlers[h].phase.Entered? && OpenSock(sys, w.handlers[h].phase.s) ==>
               OpenSock(w.sys, w.handlers[h].phase.s)
    ensures HandlerOk(w.(sys := sys), h)
  {
  }

  lemma StepOk(w: World, step: H.Step, h: nat)
    requires h < |w.handlers| && HandlerOk(w, h) && !step.DoJoin?
    ensures HandlerOk(w.(sys := H.Apply(w.sys, step)), h)
  {
    var sys := H.Apply(w.sys, step);
    if w.handlers[h].phase.Entered? && OpenSock(sys, w.handlers[h].phase.s) {
      StepOpens(w.sys, step, w.handlers[h].phase.s);
    }
    HubOk(w, sys, h);
  }

  lemma EnterOk(w: World, j: nat, h: nat)
    requires Linked(w) && h < |w.handlers| && HandlerOk(w, h)
    ensures HandlerOk(Next(w, Enter(j)), h)
  {
    assert HandlerFits(w, h);
    if At(w, j, UserLoaded) && w.handlers[h].phase.Entered? {
      var s := w.handlers[h].phase.s;
      if OpenSock(Next(w, Enter(j)).sys, s) {
        JoinOpens(w.sys, w.handlers[j].room, w.handlers[j].user, s);
      }
    }
  }

  /** Every event keeps what holds for a handler unless it ousts the handler's user. */
  lemma NextOk(w: World, e: Event, h: nat)
    requires Inv(w) && Linked(w) && h < |Next(w, e).handlers|
    requires h < |w.handlers| ==> HandlerOk(w, h) && !Ousts(w, e, h)
    ensures HandlerOk(Next(w, e), h)
  {
    if h < |w.handlers| {
      match e
      case Rest(req) => RestOk(w, req, h);
      case Call(k) => if k < |w.calls| { CallOk(w, k, h); }
      case Enter(j) => EnterOk(w, j, h);
      case Hub(step) => if !step.DoJoin? { StepOk(w, step, h); }
      case Arrive(room, user) =>
      case CheckMember(j) =>
      case LoadUser(j) =>
    }
  }

  ghost predicate Ousted(w: World, events: seq<Event>, h: nat)
    decreases |events|
  {
    events != [] && ((h < |w.handlers| && Ousts(w, events[0], h)) || Ousted(Next(w, events[0]), events[1..], h))
  }

  lemma {:induction false} RunOk(w: World, events: seq<Event>, h: nat)
    requires Inv(w) && Linked(w) && (h < |w.handlers| ==> HandlerOk(w, h)) && !Ousted(w, events, h)
    ensures h < |Run(w, events).handlers| ==> HandlerOk(Run(w, events), h)
    decreases |events|
  {
    if events != [] {
      var next := Next(w, events[0]);
      NextKeeps(w, events[0]);
      NextLinked(w, events[0]);
      if h < |next.handlers| {
        NextOk(w, events[0], h);
      }
      RunOk(next, events[1..], h);
    }
  }

  /** On every run, in every interleaving, an open socket that the hub holds came from a
      handler, and it is that of an active, non-kicked member of a room that has not ended,
      or the call that closes it is on its way, unless what the handler had checked was
      undone: the room ended between the handler's first check and its join, the user left
      or was kicked between the second and the join, or one of the two accounts was deleted
      since. */
  lemma OpenSocketsBelong(events: seq<Event>, s: nat) returns (h: nat)
    requires OpenSock(Run(INIT, events).sys, s)
    ensures var w := Run(INIT, events);
            && At(w, h, Entered(s)) && IsSock(w.sys, s, w.handlers[h].room, w.handlers[h].user)
            && (Ousted(INIT, events, h) || Belongs(w, w.handlers[h].room, w.handlers[h].user))
  {
    InitInv();
    RunKeeps(INIT, events);
    var w := Run(INIT, events);
    assert HasHandler(w, s);
    h :| 0 <= h < |w.handlers| && At(w, h, Entered(s));
    assert HandlerFits(w, h);
    if !Ousted(INIT, events, h) {
      RunOk(INIT, events, h);
    }
  }

  /** No request that puts somebody out falls between a handler's first check and its join,
      and no account is deleted. */
  ghost predicate Undisturbed(w: World, events: seq<Event>)
    decreases |events|
  {
    events == [] ||
    (&& (forall h :: 0 <= h < |w.handlers| ==> !Ousts(w, events[0], h))
     && Undisturbed(Next(w, events[0]), events[1..]))
  }

  lemma {:induction false} UndisturbedOustsNobody(w: World, events: seq<Event>, h: nat)
    requires Undisturbed(w, events)
    ensures !Ousted(w, events, h)
    decreases |events|
  {
    if events != [] {
      UndisturbedOustsNobody(Next(w, events[0]), events[1..], h);
    }
  }

  /** So on every run in which that happens to nobody, once the calls owed are made, every
      open socket the hub holds is an active member's of a room that has not ended. */
  lemma OpenSocketsBelongUndisturbed(events: seq<Event>, s: nat)
    requires Undisturbed(INIT, events) && Run(INIT, events).calls == [] && OpenSock(Run(INIT, events).sys, s)
    ensures var w := Run(INIT, events);
            MayBeThere(w.db, w.sys.socks[s].client.room, w.sys.socks[s].client.user)
  {
    var h := OpenSocketsBelong(events, s);
    UndisturbedOustsNobody(INIT, events, h);
  }
}
