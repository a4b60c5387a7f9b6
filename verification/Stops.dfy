/** A room's shared stops. The table keeps a position per row and hands out one past the
    largest; read back in order of position it is a plain list with append, relabel,
    delete and clear. */
module Stops {
  import opened Types
  import opened Sorted

  datatype StopRow = StopRow(
    room: Id,
    lat: real,
    lng: real,
    title: Option<string>,
    position: int,
    createdBy: Id,
    createdAt: Time)

  type Table = map<Id, StopRow>

  /** The largest value of the position column, a 32-bit integer. */
  const MAX_POSITION: int := 0x7fff_ffff

  predicate InRoom(t: Table, room: Id, id: Id) {
    id in t && t[id].room == room
  }

  function Position(t: Table, id: Id): int {
    if id in t then t[id].position else 0
  }

  function Positions(t: Table, room: Id): set<int> {
    set id | id in t && t[id].room == room :: t[id].position
  }

  lemma {:induction false} MaxExists(s: set<int>)
    requires |s| > 0
    ensures exists m :: m in s && forall x :: x in s ==> x <= m
    decreases |s|
  {
    var y := AnyElement(s);
    var rest := s - {y};
    assert forall x :: x in s <==> x == y || x in rest;
    if |rest| > 0 {
      MaxExists(rest);
      var m :| m in rest && forall x :: x in rest ==> x <= m;
      assert y in s && m in s;
    }
  }

  ghost function MaxOf(s: set<int>): (m: int)
    requires |s| > 0
    ensures m in s && forall x :: x in s ==> x <= m
  {
    MaxExists(s);
    var m :| m in s && forall x :: x in s ==> x <= m;
    m
  }

  /** COALESCE(MAX(position) + 1, 0) over the room's rows. */
  ghost function NextPosition(t: Table, room: Id): int {
    if |Positions(t, room)| == 0 then 0 else MaxOf(Positions(t, room)) + 1
  }

  /** The insert goes through: the id is new and the position fits its column. */
  ghost predicate CanAdd(t: Table, room: Id, id: Id) {
    id !in t && NextPosition(t, room) <= MAX_POSITION
  }

  ghost function AddStop(t: Table, room: Id, id: Id, lat: real, lng: real, title: Option<string>, user: Id,
      now: Time): Table {
    if CanAdd(t, room, id) then t[id := StopRow(room, lat, lng, title, NextPosition(t, room), user, now)] else t
  }

  function Relabel(t: Table, room: Id, id: Id, title: Option<string>): Table {
    if InRoom(t, room, id) then t[id := t[id].(title := title)] else t
  }

  function RemoveStop(t: Table, room: Id, id: Id): Table {
    if InRoom(t, room, id) then t - {id} else t
  }

  /** Without the rows of the given rooms: `ClearStops`, and the cascade when rooms go. */
  function ClearStops(t: Table, rooms: set<Id>): Table {
    map id | id in t && t[id].room !in rooms :: t[id]
  }

  datatype Op =
    | Add(room: Id, id: Id, lat: real, lng: real, title: Option<string>, user: Id, now: Time)
    | SetLabel(room: Id, id: Id, title: Option<string>)
    | Remove(room: Id, id: Id)
    | Clear(rooms: set<Id>)

  ghost function Apply(t: Table, op: Op): Table {
    match op
    case Add(room, id, lat, lng, title, user, now) => AddStop(t, room, id, lat, lng, title, user, now)
    case SetLabel(room, id, title) => Relabel(t, room, id, title)
    case Remove(room, id) => RemoveStop(t, room, id)
    case Clear(rooms) => ClearStops(t, rooms)
  }

  ghost function Run(t: Table, ops: seq<Op>): Table
    decreases |ops|
  {
    if ops == [] then t else Run(Apply(t, ops[0]), ops[1..])
  }

  // --- the plain list ----------------------------------------------------------------

  datatype Stop = Stop(id: Id, lat: real, lng: real, title: Option<string>, createdBy: Id, createdAt: Time)

  /** The stops of every room that has some. */
  type Routes = map<Id, seq<Stop>>

  function Route(a: Routes, room: Id): seq<Stop> {
    if room in a then a[room] else []
  }

  function Labelled(l: seq<Stop>, id: Id, title: Option<string>): seq<Stop> {
    seq(|l|, i requires 0 <= i < |l| => if l[i].id == id then l[i].(title := title) else l[i])
  }

  function Without(l: seq<Stop>, id: Id): seq<Stop> {
    if l == [] then []
    else if l[0].id == id then l[1..]
    else [l[0]] + Without(l[1..], id)
  }

  /** The list operation; `added` tells whether an append went through. */
  function ApplyList(a: Routes, op: Op, added: bool): Routes {
    match op
    case Add(room, id, lat, lng, title, user, now) =>
      if added then a[room := Route(a, room) + [Stop(id, lat, lng, title, user, now)]] else a
    case SetLabel(room, id, title) => a[room := Labelled(Route(a, room), id, title)]
    case Remove(room, id) => a[room := Without(Route(a, room), id)]
    case Clear(rooms) => a - rooms
  }

  /** The appends of a run that went through. */
  ghost predicate Added(t: Table, op: Op) {
    op.Add? && CanAdd(t, op.room, op.id)
  }

  ghost function RunLists(t: Table, a: Routes, ops: seq<Op>): Routes
    decreases |ops|
  {
    if ops == [] then a else RunLists(Apply(t, ops[0]), ApplyList(a, ops[0], Added(t, ops[0])), ops[1..])
  }

  // --- refinement ----------------------------------------------------------------------

  ghost predicate RowIs(t: Table, room: Id, s: Stop) {
    && InRoom(t, room, s.id)
    && t[s.id].lat == s.lat && t[s.id].lng == s.lng && t[s.id].title == s.title
    && t[s.id].createdBy == s.createdBy && t[s.id].createdAt == s.createdAt
  }

  ghost predicate Lists(l: seq<Stop>, id: Id) {
    exists i :: 0 <= i < |l| && l[i].id == id
  }

  /** The list is the room's rows in strictly increasing position. */
  ghost predicate IsRoute(t: Table, room: Id, l: seq<Stop>) {
    && (forall i :: 0 <= i < |l| ==> RowIs(t, room, l[i]))
    && (forall i, j :: 0 <= i < j < |l| ==> Position(t, l[i].id) < Position(t, l[j].id))
    && (forall id :: InRoom(t, room, id) ==> Lists(l, id))
  }

  ghost predicate Refines(t: Table, a: Routes) {
    forall room :: IsRoute(t, room, Route(a, room))
  }

  /** Rows of other rooms do not matter. */
  lemma OtherRoom(t: Table, t': Table, room: Id, l: seq<Stop>)
    requires IsRoute(t, room, l)
    requires forall id :: InRoom(t, room, id) <==> InRoom(t', room, id)
    requires forall id :: InRoom(t, room, id) && InRoom(t', room, id) ==> t'[id] == t[id]
    ensures IsRoute(t', room, l)
  {
    forall i | 0 <= i < |l| ensures RowIs(t', room, l[i]) {
      assert RowIs(t, room, l[i]);
    }
    forall i, j | 0 <= i < j < |l| ensures Position(t', l[i].id) < Position(t', l[j].id) {
      assert RowIs(t, room, l[i]) && RowIs(t, room, l[j]);
    }
  }

  lemma AddRefines(t: Table, op: Op, l: seq<Stop>)
    requires op.Add? && CanAdd(t, op.room, op.id) && IsRoute(t, op.room, l)
    ensures IsRoute(Apply(t, op), op.room, l + [Stop(op.id, op.lat, op.lng, op.title, op.user, op.now)])
  {
    var t' := Apply(t, op);
    var s := Stop(op.id, op.lat, op.lng, op.title, op.user, op.now);
    var l' := l + [s];
    forall i | 0 <= i < |l| ensures RowIs(t', op.room, l[i]) && Position(t', l[i].id) < Position(t', op.id) {
      assert RowIs(t, op.room, l[i]);
      assert Position(t, l[i].id) in Positions(t, op.room);
    }
    forall id | InRoom(t', op.room, id) ensures Lists(l', id) {
      if id == op.id {
        assert l'[|l|].id == id;
      } else {
        assert InRoom(t, op.room, id);
        var i :| 0 <= i < |l| && l[i].id == id;
        assert l'[i].id == id;
      }
    }
    forall i, j | 0 <= i < j < |l'| ensures Position(t', l'[i].id) < Position(t', l'[j].id) {
      if j < |l| {
        assert RowIs(t, op.room, l[i]) && RowIs(t, op.room, l[j]);
      }
    }
  }

  lemma LabelRefines(t: Table, room: Id, id: Id, title: Option<string>, l: seq<Stop>)
    requires IsRoute(t, room, l)
    ensures IsRoute(Relabel(t, room, id, title), room, Labelled(l, id, title))
  {
    var t' := Relabel(t, room, id, title);
    var l' := Labelled(l, id, title);
    forall i | 0 <= i < |l| ensures RowIs(t', room, l'[i]) && Position(t', l'[i].id) == Position(t, l[i].id) {
      assert RowIs(t, room, l[i]);
    }
    forall x | InRoom(t', room, x) ensures Lists(l', x) {
      assert InRoom(t, room, x);
      var i :| 0 <= i < |l| && l[i].id == x;
      assert l'[i].id == x;
    }
  }

  /** Deleting an id keeps the other entries in order. */
  lemma {:induction false} WithoutKeeps(t: Table, room: Id, l: seq<Stop>, id: Id)
    requires forall i :: 0 <= i < |l| ==> RowIs(t, room, l[i])
    requires forall i, j :: 0 <= i < j < |l| ==> Position(t, l[i].id) < Position(t, l[j].id)
    ensures var k := Without(l, id);
            && (forall i :: 0 <= i < |k| ==> RowIs(t, room, k[i]) && k[i].id != id)
            && (forall i, j :: 0 <= i < j < |k| ==> Position(t, k[i].id) < Position(t, k[j].id))
            && (l != [] && k != [] ==> Position(t, l[0].id) <= Position(t, k[0].id))
    decreases |l|
  {
    if l != [] {
      var k := Without(l, id);
      if l[0].id == id {
        forall i | 0 <= i < |k| ensures RowIs(t, room, k[i]) && k[i].id != id {
          assert k[i] == l[i + 1];
        }
      } else {
        WithoutKeeps(t, room, l[1..], id);
        var rest := Without(l[1..], id);
        assert rest != [] ==> Position(t, l[0].id) < Position(t, rest[0].id);
      }
    }
  }

  lemma {:induction false} WithoutLists(l: seq<Stop>, id: Id, x: Id)
    requires Lists(l, x) && x != id
    ensures Lists(Without(l, id), x)
    decreases |l|
  {
    var i :| 0 <= i < |l| && l[i].id == x;
    var k := Without(l, id);
    if l[0].id == id {
      assert k[i - 1].id == x;
    } else if i == 0 {
      assert k[0].id == x;
    } else {
      assert l[1..][i - 1].id == x;
      WithoutLists(l[1..], id, x);
      var j :| 0 <= j < |Without(l[1..], id)| && Without(l[1..], id)[j].id == x;
      assert k[j + 1].id == x;
    }
  }

  lemma RemoveRefines(t: Table, room: Id, id: Id, l: seq<Stop>)
    requires IsRoute(t, room, l)
    ensures IsRoute(RemoveStop(t, room, id), room, Without(l, id))
  {
    var t' := RemoveStop(t, room, id);
    var k := Without(l, id);
    WithoutKeeps(t, room, l, id);
    forall i | 0 <= i < |k| ensures RowIs(t', room, k[i]) && Position(t', k[i].id) == Position(t, k[i].id) {
      assert RowIs(t, room, k[i]);
    }
    forall x | InRoom(t', room, x) ensures Lists(k, x) {
      assert InRoom(t, room, x);
      WithoutLists(l, id, x);
    }
  }

  /** Each table operation does what its list operation says, in its room, and leaves the
      other rooms alone. */
  lemma StepRefines(t: Table, a: Routes, op: Op)
    requires Refines(t, a)
    ensures Refines(Apply(t, op), ApplyList(a, op, Added(t, op)))
  {
    var t' := Apply(t, op);
    var a' := ApplyList(a, op, Added(t, op));
    forall room ensures IsRoute(t', room, Route(a', room)) {
      assert IsRoute(t, room, Route(a, room));
      match op
      case Add(r, id, _, _, _, _, _) =>
        if room == r && Added(t, op) {
          AddRefines(t, op, Route(a, room));
        } else {
          OtherRoom(t, t', room, Route(a, room));
        }
      case SetLabel(r, id, title) =>
        if room == r {
          LabelRefines(t, room, id, title, Route(a, room));
        } else {
          OtherRoom(t, t', room, Route(a, room));
        }
      case Remove(r, id) =>
        if room == r {
          RemoveRefines(t, room, id, Route(a, room));
        } else {
          OtherRoom(t, t', room, Route(a, room));
        }
      case Clear(rooms) =>
        if room !in rooms {
          OtherRoom(t, t', room, Route(a, room));
        }
    }
  }

  /** Stops refine a plain sequence: after every run of additions, relabellings, removals
      and clears over any rooms, each room's rows in order of position are the list that
      the same run builds. */
  lemma {:induction false} RunRefines(t: Table, a: Routes, ops: seq<Op>)
    requires Refines(t, a)
    ensures Refines(Run(t, ops), RunLists(t, a, ops))
    decreases |ops|
  {
    if ops != [] {
      StepRefines(t, a, ops[0]);
      RunRefines(Apply(t, ops[0]), ApplyList(a, ops[0], Added(t, ops[0])), ops[1..]);
    }
  }

  // --- when an addition goes through -----------------------------------------------------------

  /** Every position of the room is below the largest 32-bit integer. */
  ghost predicate HasPosition(t: Table, room: Id) {
    forall other :: other in t && t[other].room == room ==> t[other].position < 0x7fff_ffff
  }

  /** An addition goes through exactly if the id is new and the room has a position left. */
  lemma CanAddIff(t: Table, room: Id, id: Id)
    ensures CanAdd(t, room, id) <==> id !in t && HasPosition(t, room)
  {
    assert forall other :: other in t && t[other].room == room ==> t[other].position in Positions(t, room);
    if |Positions(t, room)| > 0 {
      var m := MaxOf(Positions(t, room));
      var at :| at in t && t[at].room == room && t[at].position == m;
      assert HasPosition(t, room) ==> t[at].position < 0x7fff_ffff;
    }
  }

  /** The id is in some room's list. */
  ghost predicate InSome(a: Routes, id: Id) {
    exists room :: room in a && Lists(a[room], id)
  }

  /** The plain machine: an addition appends exactly if the id is in no list. */
  ghost function ApplyPlain(a: Routes, op: Op): Routes {
    ApplyList(a, op, op.Add? && !InSome(a, op.id))
  }

  ghost function RunPlain(a: Routes, ops: seq<Op>): Routes
    decreases |ops|
  {
    if ops == [] then a else RunPlain(ApplyPlain(a, ops[0]), ops[1..])
  }

  function Additions(ops: seq<Op>): nat {
    if ops == [] then 0 else (if ops[0].Add? then 1 else 0) + Additions(ops[1..])
  }

  lemma InSomeIff(t: Table, a: Routes, id: Id)
    requires Refines(t, a)
    ensures id in t <==> InSome(a, id)
  {
    if id in t {
      var room := t[id].room;
      assert IsRoute(t, room, Route(a, room)) && InRoom(t, room, id);
      assert Lists(Route(a, room), id);
      assert room in a && Lists(a[room], id);
    }
    if room :| room in a && Lists(a[room], id) {
      assert IsRoute(t, room, Route(a, room));
      var i :| 0 <= i < |a[room]| && a[room][i].id == id;
      assert RowIs(t, room, a[room][i]);
    }
  }

  ghost predicate Below(t: Table, n: int) {
    forall id :: id in t ==> t[id].position < n
  }

  lemma NextIsBelow(t: Table, room: Id, n: nat)
    requires Below(t, n)
    ensures NextPosition(t, room) <= n
  {
    if |Positions(t, room)| > 0 {
      var m := MaxOf(Positions(t, room));
      var at :| at in t && t[at].room == room && t[at].position == m;
    }
  }

  lemma StepBelow(t: Table, op: Op, n: nat)
    requires Below(t, n)
    ensures Below(Apply(t, op), if op.Add? then n + 1 else n)
  {
    if op.Add? {
      NextIsBelow(t, op.room, n);
    }
  }

  lemma {:induction false} RunIsPlain(t: Table, a: Routes, ops: seq<Op>, n: nat)
    requires Refines(t, a) && Below(t, n) && n + Additions(ops) <= 0x8000_0000
    ensures RunLists(t, a, ops) == RunPlain(a, ops)
    decreases |ops|
  {
    if ops != [] {
      var op := ops[0];
      if op.Add? {
        InSomeIff(t, a, op.id);
        CanAddIff(t, op.room, op.id);
        assert HasPosition(t, op.room);
      }
      StepRefines(t, a, op);
      StepBelow(t, op, n);
      RunIsPlain(Apply(t, op), ApplyPlain(a, op), ops[1..], if op.Add? then n + 1 else n);
    }
  }

  /** From an empty table, on every run of at most 2^31 additions, each room's rows are the
      list of the plain machine: no addition with a new id is ever refused. */
  lemma RunRefinesPlain(ops: seq<Op>)
    requires Additions(ops) <= 0x8000_0000
    ensures Refines(Run(map[], ops), RunPlain(map[], ops))
  {
    RunIsPlain(map[], map[], ops, 0);
    RunRefines(map[], map[], ops);
  }

  // --- reading back -----------------------------------------------------------------------

  /** `ids` is an answer of SELECT ... WHERE room_id = room ORDER BY position, created_at. */
  ghost predicate IsListing(t: Table, room: Id, ids: seq<Id>) {
    && (forall i :: 0 <= i < |ids| ==> InRoom(t, room, ids[i]))
    && (forall i, j :: 0 <= i < j < |ids| ==> ids[i] != ids[j])
    && (forall id :: InRoom(t, room, id) ==> id in ids)
    && (forall i, j :: 0 <= i < j < |ids| ==>
          Position(t, ids[i]) < Position(t, ids[j])
          || (Position(t, ids[i]) == Position(t, ids[j]) && t[ids[i]].createdAt <= t[ids[j]].createdAt))
  }

  function Ids(l: seq<Stop>): seq<Id> {
    seq(|l|, i requires 0 <= i < |l| => l[i].id)
  }

  /** Two rows of a route never share a position. */
  lemma PositionsDistinct(t: Table, room: Id, l: seq<Stop>, x: Id, y: Id)
    requires IsRoute(t, room, l) && InRoom(t, room, x) && InRoom(t, room, y) && x != y
    ensures Position(t, x) != Position(t, y)
  {
    assert Lists(l, x) && Lists(l, y);
    var i :| 0 <= i < |l| && l[i].id == x;
    var j :| 0 <= j < |l| && l[j].id == y;
    assert if i < j then Position(t, l[i].id) < Position(t, l[j].id) else Position(t, l[j].id) < Position(t, l[i].id);
  }

  /** `ListStops` has one possible answer, the plain list: the tie-break never matters. */
  lemma ListingIsRoute(t: Table, room: Id, l: seq<Stop>, ids: seq<Id>)
    requires IsRoute(t, room, l)
    ensures IsListing(t, room, ids) <==> ids == Ids(l)
  {
    forall i | 0 <= i < |l| ensures RowIs(t, room, l[i]) {
    }
    assert IsListing(t, room, Ids(l)) by {
      forall id | InRoom(t, room, id) ensures id in Ids(l) {
        assert Lists(l, id);
        var i :| 0 <= i < |l| && l[i].id == id;
        assert Ids(l)[i] == id;
      }
    }
    if IsListing(t, room, ids) {
      ListingsAgree(t, room, l, ids, Ids(l));
    }
  }

  lemma ListingsAgree(t: Table, room: Id, l: seq<Stop>, a: seq<Id>, b: seq<Id>)
    requires IsRoute(t, room, l) && IsListing(t, room, a) && IsListing(t, room, b)
    ensures a == b
  {
    var less := (x: Id, y: Id) => InRoom(t, room, x) && InRoom(t, room, y) && Position(t, x) < Position(t, y);
    forall i, j | 0 <= i < j < |a| ensures less(a[i], a[j]) {
      PositionsDistinct(t, room, l, a[i], a[j]);
    }
    forall i, j | 0 <= i < j < |b| ensures less(b[i], b[j]) {
      PositionsDistinct(t, room, l, b[i], b[j]);
    }
    assert SameElements(a, b);
    AscendingUnique(less, a, b);
  }
}
