/** Runs from empty tables on which the code does not keep what it means to keep. Each is
    one input inside the condition that a lemma elsewhere states exactly. */
module FailingRuns {
  import opened Types
  import opened Frames
  import opened Tables
  import TI = TableInvariants
  import P = Pagination
  import R = Replica
  import H = HubModel
  import W = World
  import B = Belonging
  import N = Standing
  import S = Stops
  import opened OpenSockets

  const CODE: string := "123456"

  /** User 1 opens room 10 and user 2 joins it. */
  const SETUP: seq<Request> :=
    [Account(GuestOp(1)), Account(GuestOp(2)),
     Membership(1, CreateOp([Draw(10, Some(CODE))], None, 5)), Membership(2, JoinOp(CODE, 6))]

  const ROOM: RoomRow := RoomRow(CODE, None, 1, 5, None, None, None, None, None, None, None)
  const OWNER: MemberRow := MemberRow(Owner, false, 5, None)
  const GUEST: MemberRow := MemberRow(Member, false, 6, None)
  const LIVE: UserRow := UserRow(None, None)

  const BOTH: Db := EMPTY.(
    users := map[1 := LIVE, 2 := LIVE],
    rooms := map[10 := ROOM],
    members := map[(10, 1) := OWNER, (10, 2) := GUEST])

  // --- running -------------------------------------------------------------------------------

  lemma {:induction false} HandleMore(db: Db, reqs: seq<Request>, more: seq<Request>)
    ensures HandleAll(db, reqs + more) == HandleAll(HandleAll(db, reqs), more)
    decreases |reqs|
  {
    if reqs == [] {
      assert reqs + more == more;
    } else {
      assert (reqs + more)[1..] == reqs[1..] + more;
      HandleMore(Handle(db, reqs[0]).db, reqs[1..], more);
    }
  }

  lemma HandleOne(db: Db, req: Request)
    ensures HandleAll(db, [req]) == Handle(db, req).db
  {
    assert [req][1..] == [];
  }

  lemma HandleTwo(db: Db, a: Request, b: Request)
    ensures HandleAll(db, [a, b]) == Handle(Handle(db, a).db, b).db
  {
    assert [a, b] == [a] + [b];
    HandleMore(db, [a], [b]);
    HandleOne(db, a);
    HandleOne(Handle(db, a).db, b);
  }

  lemma Created(db: Db)
    requires db == EMPTY.(users := map[1 := LIVE, 2 := LIVE])
    ensures Handle(db, SETUP[2]) ==
            Outcome(db.(rooms := map[10 := ROOM], members := map[(10, 1) := OWNER]), Ok)
  {
    assert !Collides(db, 1, 10, CODE);
  }

  lemma CodeFinds(db: Db)
    requires db.rooms == map[10 := ROOM]
    ensures RoomByCode(db, CODE) == Some(10)
  {
    assert HoldsCode(db.rooms, 10, CODE);
  }

  lemma JoinedIn(db: Db)
    requires db == EMPTY.(users := map[1 := LIVE, 2 := LIVE], rooms := map[10 := ROOM], members := map[(10,
        1) := OWNER])
    ensures Handle(db, SETUP[3]) == Outcome(BOTH, Ok)
  {
    CodeFinds(db);
  }

  lemma SetupRuns()
    ensures HandleAll(EMPTY, SETUP) == BOTH
  {
    var guests := EMPTY.(users := map[1 := LIVE, 2 := LIVE]);
    var founded := guests.(rooms := map[10 := ROOM], members := map[(10, 1) := OWNER]);
    assert Handle(EMPTY, SETUP[0]).db == EMPTY.(users := map[1 := LIVE]);
    assert Handle(Handle(EMPTY, SETUP[0]).db, SETUP[1]).db == guests;
    HandleTwo(EMPTY, SETUP[0], SETUP[1]);
    Created(guests);
    JoinedIn(founded);
    HandleTwo(guests, SETUP[2], SETUP[3]);
    assert SETUP == [SETUP[0], SETUP[1]] + [SETUP[2], SETUP[3]];
    HandleMore(EMPTY, [SETUP[0], SETUP[1]], [SETUP[2], SETUP[3]]);
  }

  // --- deletions -------------------------------------------------------------------------------

  /** The admin's delete of the room's owner, stopped after its first update, leaves a
      deleted account that owns an active room and is in it. */
  lemma DeleteStoppedHalfway()
    ensures var db := AdminDelete(HandleAll(EMPTY, SETUP), 1, 9, 1);
            && TI.Deleted(db.users, 1) && RoomActive(db.rooms, 10) && db.rooms[10].owner == 1
            && ActiveMember(db.members, 10, 1)
            && !TI.DeletedOut(db.users, db.rooms, db.members)
  {
    SetupRuns();
    var db := AdminDelete(BOTH, 1, 9, 1);
    assert db.members[(10, 1)].leftAt.None? && TI.Deleted(db.users, (10, 1).1);
  }

  const SET_DEST: Request := Route(1, 10, SetDestOp(1.0, 2.0, None, None, 7))
  const HAND_OVER: Request := Membership(1, TransferOp(10, 2, 8))
  const ADD_STOP: Request := Route(1, 10, AddStopOp(20, 1.0, 2.0, None, 7))

  lemma DestinationSet()
    ensures var db := Handle(BOTH, SET_DEST).db;
            && db.users == BOTH.users && db.members == BOTH.members
            && 10 in db.rooms && db.rooms[10].owner == 1 && db.rooms[10].endedAt.None?
                && db.rooms[10].destSetBy == Some(1)
  {
    assert RequireOwner(BOTH.members, 10, 1) && RoomActive(BOTH.rooms, 10);
  }

  lemma HandedOver(db: Db)
    requires db.users == BOTH.users && db.members == BOTH.members && RoomActive(db.rooms, 10)
    ensures var db' := Handle(db, HAND_OVER).db;
            && db'.users == db.users
            && 10 in db'.rooms && db'.rooms[10].owner == 2 && db'.rooms[10].destSetBy == db.rooms[10].destSetBy
  {
    assert RequireOwner(db.members, 10, 1) && ActiveMember(db.members, 10, 2);
    assert KeepDestination(db, 10, 1, 8).rooms == db.rooms;
  }

  /** An owner who sets a destination and hands the room over cannot be hard-deleted. */
  lemma HardDeleteRefusedByDestination()
    ensures var db := HandleAll(EMPTY, SETUP + [SET_DEST, HAND_OVER]);
            1 in db.users && HardDelete(db, 1) == Outcome(db, Failed)
  {
    SetupRuns();
    HandleMore(EMPTY, SETUP, [SET_DEST, HAND_OVER]);
    HandleTwo(BOTH, SET_DEST, HAND_OVER);
    DestinationSet();
    HandedOver(Handle(BOTH, SET_DEST).db);
  }

  /** Neither can one who added a stop, be it in a room of their own. */
  lemma HardDeleteRefusedByOwnStop()
    ensures var db := HandleAll(EMPTY, SETUP + [ADD_STOP]);
            10 in db.rooms && db.rooms[10].owner == 1 && 1 in db.users && HardDelete(db, 1) == Outcome(db, Failed)
  {
    SetupRuns();
    HandleMore(EMPTY, SETUP, [ADD_STOP]);
    HandleOne(BOTH, ADD_STOP);
    assert S.Positions(BOTH.stops, 10) == {};
    assert S.CanAdd(BOTH.stops, 10, 20);
    var db := Handle(BOTH, ADD_STOP).db;
    assert 20 in db.stops && db.stops[20].createdBy == 1;
  }

  // --- the cursor ------------------------------------------------------------------------------

  const FIRST: Request := Route(1, 10, PostOp(30, "one", 7))
  const SECOND: Request := Route(2, 10, PostOp(31, "two", 8))

  const ONE: MessageRow := MessageRow(10, 1, "one", 7)
  const TWO: MessageRow := MessageRow(10, 2, "two", 8)

  lemma Posted()
    ensures HandleAll(EMPTY, SETUP + [FIRST, SECOND]) == BOTH.(messages := map[30 := ONE, 31 := TWO])
  {
    SetupRuns();
    HandleMore(EMPTY, SETUP, [FIRST, SECOND]);
    HandleTwo(BOTH, FIRST, SECOND);
    PostedOne();
    PostedTwo();
  }

  lemma PostedOne()
    ensures Handle(BOTH, FIRST).db == BOTH.(messages := map[30 := ONE])
  {
    assert ActiveMember(BOTH.members, 10, 1);
  }

  lemma PostedTwo()
    ensures Handle(BOTH.(messages := map[30 := ONE]), SECOND).db == BOTH.(messages := map[30 := ONE, 31 := TWO])
  {
    assert ActiveMember(BOTH.members, 10, 2);
  }

  lemma AuthorErased(db: Db)
    requires db == BOTH.(messages := map[30 := ONE, 31 := TWO])
    ensures Handle(db, Account(HardDeleteOp(2))).db.messages == map[30 := ONE]
  {
    assert !StillReferenced(db, 2);
    assert 10 in KeptRooms(db.rooms, 2);
    assert KeptMessages(db.messages, 2, KeptRooms(db.rooms, 2).Keys) == map[30 := ONE];
  }

  /** The cursor's author is hard-deleted between two pages of one line: the second page is
      empty although the older line is still there. */
  lemma CursorLost()
    ensures var db := HandleAll(EMPTY, SETUP + [FIRST, SECOND]);
            var later := Handle(db, Account(HardDeleteOp(2))).db;
            && P.IsPage(db.messages, 10, None, 1, [31])
            && P.IsPage(later.messages, 10, Some(31), 1, [])
            && 30 in later.messages && P.Matches(db.messages, 10, Some(31), 30)
  {
    Posted();
    AuthorErased(BOTH.(messages := map[30 := ONE, 31 := TWO]));
  }

  // --- open sockets ----------------------------------------------------------------------------

  lemma RunOneMore(w: W.World, events: seq<W.Event>, e: W.Event)
    ensures W.Run(w, events + [e]) == W.Next(W.Run(w, events), e)
    decreases |events|
  {
    if events == [] {
      assert events + [e] == [e] && [e][1..] == [];
    } else {
      assert (events + [e])[1..] == events[1..] + [e];
      RunOneMore(W.Next(w, events[0]), events[1..], e);
    }
  }

  /** The setup, and user 2's handler past its three checks. */
  const CHECKED: seq<W.Event> :=
    [W.Rest(SETUP[0])] + [W.Rest(SETUP[1])] + [W.Rest(SETUP[2])] + [W.Rest(SETUP[3])] + [W.Call(0)]
    + [W.Arrive(10, 2)] + [W.CheckMember(0)] + [W.LoadUser(0)]

  const WAITING: W.World := W.World(BOTH, H.INIT, [W.Handler(10, 2, W.UserLoaded)], [])

  lemma SetupCommits()
    ensures W.Run(W.INIT, [W.Rest(SETUP[0])] + [W.Rest(SETUP[1])] + [W.Rest(SETUP[2])] + [W.Rest(SETUP[3])])
            == W.World(BOTH, H.INIT, [], [R.Notify(10, MemberJoined(2), None)])
  {
    var guests := EMPTY.(users := map[1 := LIVE, 2 := LIVE]);
    var founded := guests.(rooms := map[10 := ROOM], members := map[(10, 1) := OWNER]);
    var one := [W.Rest(SETUP[0])];
    var two := one + [W.Rest(SETUP[1])];
    var three := two + [W.Rest(SETUP[2])];
    assert one == [] + [W.Rest(SETUP[0])];
    RunOneMore(W.INIT, [], W.Rest(SETUP[0]));
    RunOneMore(W.INIT, one, W.Rest(SETUP[1]));
    RunOneMore(W.INIT, two, W.Rest(SETUP[2]));
    RunOneMore(W.INIT, three, W.Rest(SETUP[3]));
    assert W.Run(W.INIT, one) == W.INIT.(db := EMPTY.(users := map[1 := LIVE]));
    assert W.Run(W.INIT, two) == W.INIT.(db := guests);
    Created(guests);
    assert W.Run(W.INIT, three) == W.INIT.(db := founded);
    JoinedIn(founded);
    CodeFinds(founded);
    assert W.HubCalls(founded, SETUP[3]) == [R.Notify(10, MemberJoined(2), None)];
  }

  lemma HandlerWaits()
    ensures W.Run(W.INIT, CHECKED) == WAITING
  {
    var done := [W.Rest(SETUP[0])] + [W.Rest(SETUP[1])] + [W.Rest(SETUP[2])] + [W.Rest(SETUP[3])];
    var w4 := W.World(BOTH, H.INIT, [], [R.Notify(10, MemberJoined(2), None)]);
    SetupCommits();
    RunOneMore(W.INIT, done, W.Call(0));
    assert W.Without(w4.calls, 0) == [];
    assert W.Next(w4, W.Call(0)) == W.World(BOTH, H.INIT, [], []);
    RunOneMore(W.INIT, done + [W.Call(0)], W.Arrive(10, 2));
    RunOneMore(W.INIT, done + [W.Call(0)] + [W.Arrive(10, 2)], W.CheckMember(0));
    RunOneMore(W.INIT, done + [W.Call(0)] + [W.Arrive(10, 2)] + [W.CheckMember(0)], W.LoadUser(0));
    var w6 := W.World(BOTH, H.INIT, [W.Handler(10, 2, W.RoomChecked)], []);
    assert W.Next(W.World(BOTH, H.INIT, [], []), W.Arrive(10, 2)) == w6;
    assert W.Next(w6, W.CheckMember(0)) == w6.(handlers := [W.Handler(10, 2, W.MemberChecked)]);
  }

  const KICK: Request := Membership(1, KickOp(10, 2, 9))
  const DELETE: Request := Membership(2, DeleteAccountOp(9))

  /** The handler has checked, the owner kicks its user, the hub finds nobody to close, and
      then the handler joins: a kicked user's socket is open, and no call is on its way. */
  lemma KickBetweenChecksAndJoin()
    ensures var w := W.Run(W.INIT, CHECKED + [W.Rest(KICK)] + [W.Call(0)] + [W.Enter(0)]);
            && OpenSock(w.sys, 0) && IsSock(w.sys, 0, 10, 2)
            && (10, 2) in w.db.members && w.db.members[(10, 2)].kicked && !B.Belongs(w, 10, 2)
  {
    HandlerWaits();
    RunOneMore(W.INIT, CHECKED, W.Rest(KICK));
    RunOneMore(W.INIT, CHECKED + [W.Rest(KICK)], W.Call(0));
    RunOneMore(W.INIT, CHECKED + [W.Rest(KICK)] + [W.Call(0)], W.Enter(0));
    KickCommits();
    KickFindsNobody();
    NewcomerIsOpen(H.INIT, 10, 2);
  }

  const KICKED: Db := BOTH.(members := map[(10, 1) := OWNER, (10, 2) := GUEST.(kicked := true, leftAt := Some(9))])

  lemma KickCommits()
    ensures W.Next(WAITING, W.Rest(KICK)) == WAITING.(db := KICKED, calls := [R.KickUser(10, 2, 1)])
  {
    assert Handle(BOTH, KICK) == Outcome(KICKED, Ok);
  }

  lemma KickFindsNobody()
    ensures W.Next(WAITING.(db := KICKED, calls := [R.KickUser(10, 2, 1)]), W.Call(0)) == WAITING.(db := KICKED)
  {
    assert W.Without([R.KickUser(10, 2, 1)], 0) == [];
    assert R.PerformKick(H.INIT, 10, 2, 1) == H.INIT;
  }

  lemma Entered()
    ensures var w := W.Next(WAITING, W.Enter(0));
            && w.db == BOTH && w.calls == []
            && OpenSock(w.sys, 0) && IsSock(w.sys, 0, 10, 2)
  {
    NewcomerIsOpen(H.INIT, 10, 2);
  }

  lemma DeletionPutsOut()
    ensures var db := Handle(BOTH, DELETE).db;
            TI.Deleted(db.users, 2) && !ActiveMember(db.members, 10, 2)
  {
    TI.SoftDeletes(BOTH, 2, 9);
    W.DeletionExpels(BOTH, SoftDelete(BOTH, 2, 9), 2, 10, 2);
  }

  /** A connected user deletes their account: the socket stays open, its user is in the room
      no more, and no call is on its way. */
  lemma DeletedUserStaysConnected()
    ensures var w := W.Run(W.INIT, CHECKED + [W.Enter(0)] + [W.Rest(DELETE)]);
            && OpenSock(w.sys, 0) && IsSock(w.sys, 0, 10, 2)
            && TI.Deleted(w.db.users, 2) && !B.Belongs(w, 10, 2)
  {
    HandlerWaits();
    RunOneMore(W.INIT, CHECKED, W.Enter(0));
    RunOneMore(W.INIT, CHECKED + [W.Enter(0)], W.Rest(DELETE));
    Entered();
    N.DeletionLeavesHub(W.Next(WAITING, W.Enter(0)), W.Rest(DELETE));
    DeletionPutsOut();
  }
}
