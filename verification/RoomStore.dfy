/** The store: the tables as fields, each SQL statement as a method that changes them. */
module RoomStore {
  import opened Types
  import T = Tables
  import S = Stops
  import P = Pagination
  import Sorted

  datatype Insert = Inserted | UniqueViolation | OtherError

  /** The position one past the room's largest: the loop of the aggregate. */
  method NextPosition(t: S.Table, room: Id) returns (next: int)
    ensures next == S.NextPosition(t, room)
  {
    var all := S.Positions(t, room);
    var rest := all;
    var largest := None;
    while |rest| > 0
      invariant rest <= all && (largest.None? ==> rest == all)
      invariant largest.Some? ==> largest.value in all && forall p :: p in all ==> p in rest || p <= largest.value
      decreases |rest|
    {
      ghost var some := Sorted.AnyElement(rest);
      var p :| p in rest;
      largest := if largest.None? || largest.value < p then Some(p) else largest;
      rest := rest - {p};
    }
    next := if largest.None? then 0 else largest.value + 1;
  }

  /** The row order of a listing. */
  predicate NotAfter(t: S.Table, a: Id, b: Id)
    requires a in t && b in t
  {
    t[a].position < t[b].position || (t[a].position == t[b].position && t[a].createdAt <= t[b].createdAt)
  }

  method Foremost(t: S.Table, ids: set<Id>) returns (first: Id)
    requires |ids| > 0 && ids <= t.Keys
    ensures first in ids && forall x :: x in ids ==> NotAfter(t, first, x)
  {
    ghost var some := Sorted.AnyElement(ids);
    first :| first in ids;
    var rest := ids - {first};
    while |rest| > 0
      invariant rest <= ids && first in ids
      invariant forall x :: x in ids ==> x in rest || NotAfter(t, first, x)
      decreases |rest|
    {
      some := Sorted.AnyElement(rest);
      var x :| x in rest;
      if !NotAfter(t, first, x) {
        first := x;
      }
      rest := rest - {x};
    }
  }

  /** One member's row is not younger than the other's. */
  predicate JoinedBy(members: T.Members, room: Id, a: Id, b: Id) {
    (room, a) in members && (room, b) in members && members[(room, a)].joinedAt <= members[(room, b)].joinedAt
  }

  method Earliest(members: T.Members, room: Id, users: set<Id>) returns (first: Id)
    requires |users| > 0 && forall u :: u in users ==> (room, u) in members
    ensures first in users && forall x :: x in users ==> JoinedBy(members, room, first, x)
  {
    ghost var some := Sorted.AnyElement(users);
    first :| first in users;
    var rest := users - {first};
    while |rest| > 0
      invariant rest <= users && first in users
      invariant forall x :: x in users ==> x in rest || JoinedBy(members, room, first, x)
      decreases |rest|
    {
      some := Sorted.AnyElement(rest);
      var x :| x in rest;
      if !JoinedBy(members, room, first, x) {
        first := x;
      }
      rest := rest - {x};
    }
  }

  class Store {
    var users: map<Id, T.UserRow>
    var identities: map<(string, string), Id>
    var rooms: map<Id, T.RoomRow>
    var members: T.Members
    var stops: S.Table
    var markers: map<(Id, Id), T.MarkerRow>
    var messages: map<Id, T.MessageRow>

    ghost function Db(): T.Db
      reads this
    {
      T.Db(users, identities, rooms, members, stops, markers, messages)
    }

    constructor ()
      ensures Db() == T.EMPTY
    {
      users, identities, rooms, members := map[], map[], map[], map[];
      stops, markers, messages := map[], map[], map[];
    }

    // --- rooms and members ---------------------------------------------------------------

    /** Two inserts in a transaction; a failing second one undoes the first. */
    method CreateRoom(owner: Id, id: Id, code: string, name: Option<string>, now: Time) returns (r: Insert)
      modifies this`rooms, this`members
      ensures r.UniqueViolation? <==> T.Collides(old(Db()), owner, id, code)
      ensures r.OtherError? <==> !T.Collides(old(Db()), owner, id, code) && owner !in users
      ensures Db() == if r.Inserted? then T.InsertRoom(old(Db()), owner, id, code, name, now) else old(Db())
    {
      if id in rooms || exists q :: q in rooms && T.HoldsCode(rooms, q, code) {
        return UniqueViolation;
      }
      var was := rooms;
      rooms := rooms[id := T.RoomRow(code, name, owner, now, None, None, None, None, None, None, None)];
      if (id, owner) in members {
        rooms := was;
        return UniqueViolation;
      }
      if owner !in users {
        rooms := was;
        return OtherError;
      }
      members := members[(id, owner) := T.MemberRow(T.Owner, false, now, None)];
      return Inserted;
    }

    /** Some room that has not ended holds the code. */
    method GetActiveByCode(code: string) returns (room: Option<Id>)
      ensures room.Some? ==> T.HoldsCode(rooms, room.value, code)
      ensures room.None? ==> forall r :: !T.HoldsCode(rooms, r, code)
    {
      var found := set r | r in rooms && T.HoldsCode(rooms, r, code);
      if |found| == 0 {
        assert forall r :: T.HoldsCode(rooms, r, code) ==> r in found;
        return None;
      }
      ghost var some := Sorted.AnyElement(found);
      var r :| r in found;
      return Some(r);
    }

    method UpsertMember(room: Id, user: Id, now: Time)
      modifies this`members
      ensures members == T.UpsertMember(old(members), room, user, now)
    {
      if (room, user) in members {
        members := members[(room, user) := members[(room, user)].(leftAt := None, kicked := false)];
      } else {
        members := members[(room, user) := T.MemberRow(T.Member, false, now, None)];
      }
    }

    method MarkLeft(room: Id, user: Id, now: Time)
      modifies this`members
      ensures members == T.MarkLeft(old(members), room, user, now)
    {
      if (room, user) in members && members[(room, user)].leftAt.None? {
        members := members[(room, user) := members[(room, user)].(leftAt := Some(now))];
      }
    }

    method Kick(room: Id, user: Id, now: Time) returns (found: bool)
      modifies this`members
      ensures found == T.Listed(old(members), room, user)
      ensures members == T.MarkKicked(old(members), room, user, now)
    {
      found := T.Listed(members, room, user);
      if found {
        members := members[(room, user) := members[(room, user)].(kicked := true, leftAt := Some(now))];
      }
    }

    /** An UPDATE of one room row, guarded by `ended_at IS NULL`. */
    method UpdateRoom(room: Id, row: T.RoomRow -> T.RoomRow) returns (found: bool)
      modifies this`rooms
      ensures found == T.RoomActive(old(rooms), room)
      ensures rooms == if found then old(rooms)[room := row(old(rooms)[room])] else old(rooms)
    {
      found := T.RoomActive(rooms, room);
      if found {
        rooms := rooms[room := row(rooms[room])];
      }
    }

    /** Rewrites name and notes of a destination that is set. */
    method UpdateDestinationMeta(room: Id, name: Option<string>, notes: Option<string>) returns (found: bool)
      modifies this`rooms
      ensures found == (T.RoomActive(old(rooms), room) && T.ReadDestination(old(rooms)[room]).Some?)
      ensures rooms == if found then old(rooms)[room := old(rooms)[room].(destName := name, destNotes := notes)]
          else old(rooms)
    {
      found := T.RoomActive(rooms, room) && rooms[room].destLat.Some? && rooms[room].destLng.Some?;
      if found {
        rooms := rooms[room := rooms[room].(destName := name, destNotes := notes)];
      }
    }

    method ActiveMembership(room: Id, user: Id) returns (role: Option<T.Role>)
      ensures role.Some? == T.ActiveMember(members, room, user)
      ensures role.Some? ==> role.value == members[(room, user)].role
    {
      if (room, user) in members && members[(room, user)].leftAt.None? && !members[(room, user)].kicked {
        return Some(members[(room, user)].role);
      }
      return None;
    }

    /** The four statements of the transaction; it commits only if the target is an active
        member and the room has not ended. */
    method TransferOwnership(room: Id, was: Id, next: Id) returns (found: bool)
      modifies this`rooms, this`members
      ensures found == (T.ActiveMember(old(members), room, next) && T.RoomActive(old(rooms), room))
      ensures found ==> Db() == T.HandOver(old(Db()), room, was, next)
      ensures !found ==> Db() == old(Db())
    {
      if !T.ActiveMember(members, room, next) {
        return false;
      }
      found := UpdateRoom(room, (row: T.RoomRow) => row.(owner := next));
      if found {
        members := members[(room, next) := members[(room, next)].(role := T.Owner)];
        if (room, was) in members {
          members := members[(room, was) := members[(room, was)].(role := T.Member)];
        }
      }
    }

    /** The users of the room who have not left, in the order in which they first joined. */
    method ListMembers(room: Id) returns (out: seq<Id>)
      ensures forall u :: u in out <==> T.Listed(members, room, u)
      ensures forall i, j :: 0 <= i < j < |out| ==>
                && out[i] != out[j] && (room, out[i]) in members && (room, out[j]) in members
                && members[(room, out[i])].joinedAt <= members[(room, out[j])].joinedAt
    {
      out := [];
      var rest := set k | k in members && k.0 == room && members[k].leftAt.None? :: k.1;
      while |rest| > 0
        invariant forall u :: u in rest ==> T.Listed(members, room, u)
        invariant forall u :: T.Listed(members, room, u) <==> u in out || u in rest
        invariant forall i :: 0 <= i < |out| ==> out[i] in out && out[i] !in rest
        invariant forall i, x :: 0 <= i < |out| && x in rest ==> JoinedBy(members, room, out[i], x)
        invariant forall i, j :: 0 <= i < j < |out| ==> out[i] != out[j] && JoinedBy(members, room, out[i], out[j])
        decreases |rest|
      {
        var first := Earliest(members, room, rest);
        out := out + [first];
        rest := rest - {first};
      }
    }

    // --- stops ---------------------------------------------------------------------------------

    method AddStop(room: Id, id: Id, lat: real, lng: real, title: Option<string>, user: Id, now: Time)
        returns (ok: bool)
      modifies this`stops
      ensures ok <==> id !in old(stops) && S.HasPosition(old(stops), room)
      ensures ok == S.CanAdd(old(stops), room, id)
      ensures stops == S.AddStop(old(stops), room, id, lat, lng, title, user, now)
    {
      S.CanAddIff(stops, room, id);
      var position := NextPosition(stops, room);
      ok := id !in stops && position <= S.MAX_POSITION;
      if ok {
        stops := stops[id := S.StopRow(room, lat, lng, title, position, user, now)];
      }
    }

    /** The room's rows by position, then by time. */
    method ListStops(room: Id) returns (out: seq<Id>)
      ensures S.IsListing(stops, room, out)
    {
      out := [];
      var rest := set id | id in stops && stops[id].room == room;
      while |rest| > 0
        invariant forall id :: S.InRoom(stops, room, id) <==> id in out || id in rest
        invariant forall i :: 0 <= i < |out| ==> out[i] in out && out[i] !in rest
        invariant forall i, x :: 0 <= i < |out| && x in rest ==> NotAfter(stops, out[i], x)
        invariant forall i, j :: 0 <= i < j < |out| ==> out[i] != out[j] && NotAfter(stops, out[i], out[j])
        decreases |rest|
      {
        var first := Foremost(stops, rest);
        out := out + [first];
        rest := rest - {first};
      }
    }

    method UpdateStopLabel(room: Id, id: Id, title: Option<string>) returns (found: bool)
      modifies this`stops
      ensures found == S.InRoom(old(stops), room, id)
      ensures stops == S.Relabel(old(stops), room, id, title)
    {
      found := S.InRoom(stops, room, id);
      if found {
        stops := stops[id := stops[id].(title := title)];
      }
    }

    method RemoveStop(room: Id, id: Id) returns (found: bool)
      modifies this`stops
      ensures found == S.InRoom(old(stops), room, id)
      ensures stops == S.RemoveStop(old(stops), room, id)
    {
      found := S.InRoom(stops, room, id);
      if found {
        stops := stops - {id};
      }
    }

    method ClearStops(room: Id)
      modifies this`stops
      ensures stops == S.ClearStops(old(stops), {room})
    {
      stops := map id | id in stops && stops[id].room != room :: stops[id];
    }

    // --- markers and messages --------------------------------------------------------------------

    method UpsertPersonalMarker(room: Id, user: Id, lat: real, lng: real, title: Option<string>, now: Time)
      modifies this`markers
      ensures markers == old(markers)[(room, user) := T.MarkerRow(lat, lng, title, now)]
    {
      markers := markers[(room, user) := T.MarkerRow(lat, lng, title, now)];
    }

    method CreateMessage(room: Id, user: Id, id: Id, body: string, now: Time) returns (ok: bool)
      modifies this`messages
      ensures ok == (id !in old(messages))
      ensures messages == if ok then old(messages)[id := T.MessageRow(room, user, body, now)] else old(messages)
    {
      ok := id !in messages;
      if ok {
        messages := messages[id := T.MessageRow(room, user, body, now)];
      }
    }

    method ListMessages(room: Id, before: Option<Id>, limit: nat) returns (page: seq<Id>)
      ensures P.IsPage(messages, room, before, limit, page)
      ensures P.IsNewestPage(messages, room, before, limit, page)
    {
      page := P.ListMessages(messages, room, before, limit);
    }

    // --- accounts ----------------------------------------------------------------------------------

    method StampDeleted(user: Id, now: Time)
      modifies this`users
      ensures Db() == T.StampDeleted(old(Db()), user, now)
    {
      if user in users && users[user].deletedAt.None? {
        users := users[user := users[user].(deletedAt := Some(now))];
      }
    }

    method EndOwned(user: Id, now: Time)
      modifies this`rooms
      ensures Db() == T.EndOwned(old(Db()), user, now)
    {
      rooms := map r | r in rooms :: if rooms[r].owner == user && rooms[r].endedAt.None?
                                     then rooms[r].(endedAt := Some(now)) else rooms[r];
    }

    method KickEverywhere(user: Id, now: Time)
      modifies this`members
      ensures Db() == T.KickEverywhere(old(Db()), user, now)
    {
      members := map k | k in members :: if k.1 == user && members[k].leftAt.None?
                                         then members[k].(kicked := true, leftAt := Some(now)) else members[k];
    }

    /** Account deletion: the first `done` of the three statements have happened when one
        fails; without a failure all three. In a transaction a failure undoes them. */
    method SoftDelete(user: Id, now: Time, done: nat, transaction: bool) returns (ok: bool)
      modifies this
      ensures ok == (done >= 3)
      ensures Db() == if transaction && !ok then old(Db()) else T.AdminDelete(old(Db()), user, now, done)
    {
      var wasUsers, wasRooms, wasMembers := users, rooms, members;
      ok := done >= 3;
      if done >= 1 {
        StampDeleted(user, now);
      }
      if done >= 2 {
        EndOwned(user, now);
      }
      if done >= 3 {
        KickEverywhere(user, now);
      } else if transaction {
        users, rooms, members := wasUsers, wasRooms, wasMembers;
      }
    }

    /** Find or create, then read the account back; a deleted one rolls everything back. */
    method UpsertOAuthUser(provider: string, subject: string, id: Id, email: Option<string>) returns (ok: bool)
      modifies this`users, this`identities
      ensures Db() == T.SignIn(old(Db()), provider, subject, id, email).db
      ensures ok == (T.SignIn(old(Db()), provider, subject, id, email).reply == T.Ok)
    {
      var wasUsers, wasIdentities := users, identities;
      var user;
      if (provider, subject) in identities {
        user := identities[(provider, subject)];
        if email.Some? && user in users && users[user].email != email {
          users := users[user := users[user].(email := email)];
        }
      } else {
        user := id;
        if id in users {
          return false;
        }
        users := users[id := T.UserRow(email, None)];
        identities := identities[(provider, subject) := id];
      }
      ok := user in users && users[user].deletedAt.None?;
      if !ok {
        users, identities := wasUsers, wasIdentities;
      }
    }

    method Restore(user: Id)
      modifies this`users
      ensures Db() == T.Restore(old(Db()), user)
    {
      if user in users {
        users := users[user := users[user].(deletedAt := None)];
      }
    }

    /** The references without a cascade, checked once the user's rooms are gone but not
        yet the rows that hang on these. */
    method StillReferenced(user: Id) returns (refused: bool)
      ensures refused == T.StillReferenced(Db(), user)
    {
      var pinned := exists r :: r in rooms && rooms[r].owner != user && rooms[r].destSetBy == Some(user);
      var stopped := exists id :: id in stops && stops[id].createdBy == user;
      refused := pinned || stopped;
    }

    /** The cascades of the users table: accounts' rows, then the rooms they own. */
    method CascadeUser(user: Id)
      modifies this`identities, this`members, this`markers, this`messages
      ensures identities == T.KeptIdentities(old(identities), user)
      ensures members == T.KeptRows(old(members), user, T.KeptRooms(rooms, user).Keys)
      ensures markers == T.KeptRows(old(markers), user, T.KeptRooms(rooms, user).Keys)
      ensures messages == T.KeptMessages(old(messages), user, T.KeptRooms(rooms, user).Keys)
    {
      var kept := set r | r in rooms && rooms[r].owner != user;
      assert kept == T.KeptRooms(rooms, user).Keys;
      identities := map k | k in identities && identities[k] != user :: identities[k];
      members := map k | k in members && k.1 != user && k.0 in kept :: members[k];
      markers := map k | k in markers && k.1 != user && k.0 in kept :: markers[k];
      messages := map k | k in messages && messages[k].user != user && messages[k].room in kept :: messages[k];
    }

    /** The user's rooms, and the stops that hang on them. */
    method CascadeRooms(user: Id)
      modifies this`rooms, this`stops
      ensures rooms == T.KeptRooms(old(rooms), user)
      ensures stops == S.ClearStops(old(stops), old(rooms).Keys - rooms.Keys)
    {
      var was := rooms;
      rooms := map r | r in rooms && rooms[r].owner != user :: rooms[r];
      var lost := was.Keys - rooms.Keys;
      stops := map id | id in stops && stops[id].room !in lost :: stops[id];
    }

    /** One DELETE with its cascades; a reference that does not cascade refuses it. */
    method HardDelete(user: Id) returns (reply: T.Reply)
      modifies this
      ensures T.Outcome(Db(), reply) == T.HardDelete(old(Db()), user)
    {
      if user !in users {
        return T.Ok;
      }
      var refused := StillReferenced(user);
      if refused {
        return T.Failed;
      }
      CascadeUser(user);
      CascadeRooms(user);
      users := users - {user};
      reply := T.Ok;
    }
  }
}
