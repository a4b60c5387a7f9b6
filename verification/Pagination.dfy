/** The chat history and its cursor: one page is the top of what lies below the cursor,
    and following the last line of each page reads the history exactly once, even while
    it grows. */
module Pagination {
  import opened Types
  import T = Tables
  import Sorted

  type Messages = map<Id, T.MessageRow>

  const MAX_PAGE: int := 100
  const DEFAULT_PAGE: int := 50

  /** The row order of the query: by time, ties by id. */
  predicate Above(t: Messages, a: Id, b: Id) {
    && a in t && b in t
    && (t[a].createdAt > t[b].createdAt || (t[a].createdAt == t[b].createdAt && a > b))
  }

  /** The WHERE clause. A cursor that names no row compares as unknown and selects nothing. */
  predicate Matches(t: Messages, room: Id, before: Option<Id>, id: Id) {
    id in t && t[id].room == room && (before.None? || Above(t, before.value, id))
  }

  ghost predicate Descending(t: Messages, ids: seq<Id>) {
    forall i, j :: 0 <= i < j < |ids| ==> Above(t, ids[i], ids[j])
  }

  /** The page holds the topmost matching rows, in order: what it leaves out is below all
      of it, and it leaves something out only when it is full. */
  ghost predicate IsPage(t: Messages, room: Id, before: Option<Id>, limit: nat, page: seq<Id>) {
    && |page| <= limit
    && Descending(t, page)
    && (forall id :: id in page ==> Matches(t, room, before, id))
    && (forall id :: Matches(t, room, before, id) && id !in page ==> |page| == limit)
    && (forall id, x :: Matches(t, room, before, id) && id !in page && x in page ==> Above(t, x, id))
  }

  // --- in terms of the columns ---------------------------------------------------------------

  /** A later time, or the same time and a larger id. */
  predicate Newer(t: Messages, a: Id, b: Id) {
    && a in t && b in t
    && (t[a].createdAt >= t[b].createdAt && (t[a].createdAt == t[b].createdAt ==> a > b))
  }

  ghost predicate NewestFirst(t: Messages, ids: seq<Id>) {
    forall i, j :: 0 <= i < j < |ids| ==> Newer(t, ids[i], ids[j])
  }

  /** A line of the room that lies below the cursor, if there is one. */
  predicate Eligible(t: Messages, room: Id, before: Option<Id>, id: Id) {
    && id in t && t[id].room == room
    && (before.Some? ==>
          && before.value in t
          && (|| t[id].createdAt < t[before.value].createdAt
              || (t[id].createdAt == t[before.value].createdAt && id < before.value)))
  }

  lemma MatchesIff(t: Messages, room: Id, before: Option<Id>, id: Id)
    ensures Matches(t, room, before, id) <==> Eligible(t, room, before, id)
  {
  }

  lemma AboveIsNewer(t: Messages, a: Id, b: Id)
    ensures Above(t, a, b) <==> Newer(t, a, b)
  {
  }

  lemma DescendingIsNewestFirst(t: Messages, ids: seq<Id>)
    requires Descending(t, ids)
    ensures NewestFirst(t, ids)
  {
    forall i, j | 0 <= i < j < |ids| ensures Newer(t, ids[i], ids[j]) {
      assert Above(t, ids[i], ids[j]);
      AboveIsNewer(t, ids[i], ids[j]);
    }
  }

  /** The newest eligible lines of the room, newest first, as many as the limit allows. */
  ghost predicate IsNewestPage(t: Messages, room: Id, before: Option<Id>, limit: nat, page: seq<Id>) {
    && |page| <= limit && NewestFirst(t, page)
    && (forall id :: id in page ==> Eligible(t, room, before, id))
    && (forall id :: Eligible(t, room, before, id) && id !in page ==> |page| == limit)
    && (forall id, x :: Eligible(t, room, before, id) && id !in page && x in page ==>
          x in t && t[id].createdAt <= t[x].createdAt)
  }

  lemma PageIsNewest(t: Messages, room: Id, before: Option<Id>, limit: nat, page: seq<Id>)
    requires IsPage(t, room, before, limit, page)
    ensures IsNewestPage(t, room, before, limit, page)
  {
    DescendingIsNewestFirst(t, page);
    forall id: Id ensures Matches(t, room, before, id) <==> Eligible(t, room, before, id) {
      MatchesIff(t, room, before, id);
    }
  }

  // --- a page is determined -----------------------------------------------------------

  lemma DescendingBound(t: Messages, ids: seq<Id>, all: set<Id>)
    requires Descending(t, ids) && forall x :: x in ids ==> x in all
    ensures |ids| <= |all|
    ensures |ids| == |all| ==> forall x :: x in all ==> x in ids
    decreases |ids|
  {
    if ids != [] {
      var last := ids[|ids| - 1];
      forall x | x in ids[..|ids| - 1] ensures x in all - {last} {
        var i :| 0 <= i < |ids| - 1 && ids[i] == x;
        assert Above(t, ids[i], last);
      }
      DescendingBound(t, ids[..|ids| - 1], all - {last});
      assert forall x :: x in ids[..|ids| - 1] ==> x in ids;
    }
  }

  lemma PageInside(t: Messages, room: Id, before: Option<Id>, limit: nat, p: seq<Id>, q: seq<Id>, x: Id)
    requires IsPage(t, room, before, limit, p) && IsPage(t, room, before, limit, q) && x in p
    ensures x in q
  {
    if x !in q {
      forall y | y in q ensures y in p {
        assert Above(t, y, x);
        assert y !in p ==> Above(t, x, y);
      }
      SizeOfElements(p);
      assert x in Elements(p);
      DescendingBound(t, q, Elements(p) - {x});
    }
  }

  function Elements(p: seq<Id>): set<Id> {
    set y | y in p
  }

  lemma {:induction false} SizeOfElements(p: seq<Id>)
    ensures |Elements(p)| <= |p|
  {
    if p != [] {
      SizeOfElements(p[1..]);
      assert Elements(p) == Elements(p[1..]) + {p[0]};
    }
  }

  lemma AboveIsStrict(t: Messages)
    ensures Sorted.StrictOrder((a: Id, b: Id) => Above(t, a, b))
  {
  }

  /** The query has exactly one answer. */
  lemma PageUnique(t: Messages, room: Id, before: Option<Id>, limit: nat, p: seq<Id>, q: seq<Id>)
    requires IsPage(t, room, before, limit, p) && IsPage(t, room, before, limit, q)
    ensures p == q
  {
    var above := (a: Id, b: Id) => Above(t, a, b);
    AboveIsStrict(t);
    forall x ensures x in p <==> x in q {
      if x in p { PageInside(t, room, before, limit, p, q, x); }
      if x in q { PageInside(t, room, before, limit, q, p, x); }
    }
    Sorted.AscendingUnique(above, p, q);
  }

  // --- the query -----------------------------------------------------------------------

  /** The topmost of some rows. */
  method Topmost(t: Messages, ids: set<Id>) returns (top: Id)
    requires |ids| > 0 && ids <= t.Keys
    ensures top in ids && forall x :: x in ids && x != top ==> Above(t, top, x)
  {
    ghost var some := Sorted.AnyElement(ids);
    top :| top in ids;
    var rest := ids - {top};
    while |rest| > 0
      invariant rest <= ids && top in ids && top !in rest
      invariant forall y :: y in ids ==> y == top || y in rest || Above(t, top, y)
      decreases |rest|
    {
      some := Sorted.AnyElement(rest);
      var x :| x in rest;
      assert Above(t, x, top) || Above(t, top, x);
      if Above(t, x, top) {
        top := x;
      }
      rest := rest - {x};
    }
  }

  /** The selection loop. */
  method SelectPage(t: Messages, room: Id, before: Option<Id>, limit: nat) returns (page: seq<Id>)
    ensures IsPage(t, room, before, limit, page)
  {
    page := [];
    var rest := set id | id in t && Matches(t, room, before, id);
    while |page| < limit && |rest| > 0
      invariant |page| <= limit && Descending(t, page)
      invariant forall id :: id in page ==> Matches(t, room, before, id)
      invariant forall id :: Matches(t, room, before, id) <==> id in page || id in rest
      invariant forall id, x :: id in rest && x in page ==> Above(t, x, id)
      decreases |rest|
    {
      var top := Topmost(t, rest);
      page := page + [top];
      rest := rest - {top};
    }
    assert |page| < limit ==> forall id :: id !in rest;
  }

  method ListMessages(t: Messages, room: Id, before: Option<Id>, limit: nat) returns (page: seq<Id>)
    ensures IsPage(t, room, before, limit, page) && IsNewestPage(t, room, before, limit, page)
  {
    page := SelectPage(t, room, before, limit);
    PageIsNewest(t, room, before, limit, page);
  }

  // --- following the cursor ---------------------------------------------------------------

  /** No row is deleted or edited from one table to the next. */
  ghost predicate Extends(t: Messages, t': Messages) {
    forall id :: id in t ==> id in t' && t'[id] == t[id]
  }

  ghost predicate Growing(ts: seq<Messages>) {
    forall i, j :: 0 <= i <= j < |ts| ==> Extends(ts[i], ts[j])
  }

  function Last(page: seq<Id>): Id
    requires page != []
  {
    page[|page| - 1]
  }

  /** Pages fetched one after the other, the table having grown in between: each asks for
      what is below the last line of the one before, and a short page is the last. */
  ghost predicate IsWalk(ts: seq<Messages>, room: Id, before: Option<Id>, limit: nat, pages: seq<seq<Id>>)
    requires limit > 0
    decreases |pages|
  {
    pages == [] ||
    (&& ts != [] && IsPage(ts[0], room, before, limit, pages[0])
     && (if |pages[0]| < limit then |pages| == 1
         else IsWalk(ts[1..], room, Some(Last(pages[0])), limit, pages[1..])))
  }

  predicate Finished(limit: nat, pages: seq<seq<Id>>) {
    pages != [] && |pages[|pages| - 1]| < limit
  }

  function Lines(pages: seq<seq<Id>>): seq<Id> {
    if pages == [] then [] else pages[0] + Lines(pages[1..])
  }

  lemma PageAboveLast(t: Messages, page: seq<Id>, i: nat)
    requires Descending(t, page) && i < |page|
    ensures page[i] == Last(page) || Above(t, page[i], Last(page))
  {
  }

  /** One page on top of lines below its last one. */
  lemma Prepend(t: Messages, page: seq<Id>, lines: seq<Id>)
    requires Descending(t, page) && Descending(t, lines)
    requires page != [] && forall x :: x in lines ==> Above(t, Last(page), x)
    ensures Descending(t, page + lines)
  {
    forall i, j | 0 <= i < j < |page + lines| ensures Above(t, (page + lines)[i], (page + lines)[j]) {
      if i < |page| && j >= |page| {
        PageAboveLast(t, page, i);
        assert Above(t, Last(page), lines[j - |page|]);
      }
    }
  }

  /** What was read is in order and below the cursor, in any table that extends all the
      ones read from; so nothing is read twice. */
  lemma {:induction false} WalkDescends(ts: seq<Messages>, end: Messages, room: Id, before: Option<Id>, limit: nat,
      pages: seq<seq<Id>>)
    requires limit > 0 && IsWalk(ts, room, before, limit, pages)
    requires forall i :: 0 <= i < |ts| ==> Extends(ts[i], end)
    ensures Descending(end, Lines(pages))
    ensures forall x :: x in Lines(pages) ==> Matches(end, room, before, x)
    decreases |pages|
  {
    if pages != [] {
      var page := pages[0];
      assert forall x :: x in page ==> Matches(ts[0], room, before, x);
      assert Descending(end, page);
      if |page| == limit {
        WalkDescends(ts[1..], end, room, Some(Last(page)), limit, pages[1..]);
        assert Last(page) in page;
        Prepend(end, page, Lines(pages[1..]));
      } else {
        assert pages[1..] == [] && Lines(pages) == page;
      }
    }
  }

  /** What was there at the first fetch is read by the time the walk is finished. */
  lemma {:induction false} WalkCovers(ts: seq<Messages>, room: Id, before: Option<Id>, limit: nat,
      pages: seq<seq<Id>>, x: Id)
    requires limit > 0 && IsWalk(ts, room, before, limit, pages) && Finished(limit, pages) && Growing(ts)
    requires Matches(ts[0], room, before, x)
    ensures x in Lines(pages)
    decreases |pages|
  {
    var page := pages[0];
    if x !in page {
      assert |page| == limit && Last(page) in page && Above(ts[0], Last(page), x);
      assert pages[1..] != [] && |ts| > 1;
      assert Extends(ts[0], ts[1]);
      assert Growing(ts[1..]) by {
        assert forall i :: 0 <= i < |ts| - 1 ==> ts[1..][i] == ts[1 + i];
      }
      WalkCovers(ts[1..], room, Some(Last(page)), limit, pages[1..], x);
    }
  }

  lemma {:induction false} DescendingOnce(t: Messages, lines: seq<Id>, x: Id)
    requires Descending(t, lines)
    ensures multiset(lines)[x] == if x in lines then 1 else 0
    decreases |lines|
  {
    if lines != [] {
      DescendingOnce(t, lines[1..], x);
      assert lines == [lines[0]] + lines[1..];
      assert forall i :: 0 < i < |lines| ==> Above(t, lines[0], lines[i]);
    }
  }

  /** Exact pagination of a growing history: read back from the newest line to a short
      page, every message of the room that was there at the first fetch appears exactly
      once, no message appears twice, and the order is strictly descending. */
  lemma GrowingHistory(ts: seq<Messages>, room: Id, limit: nat, pages: seq<seq<Id>>)
    requires limit > 0 && ts != [] && Growing(ts)
    requires IsWalk(ts, room, None, limit, pages) && Finished(limit, pages)
    ensures NewestFirst(ts[|ts| - 1], Lines(pages))
    ensures forall x :: x in ts[0] && ts[0][x].room == room ==> multiset(Lines(pages))[x] == 1
    ensures forall x :: multiset(Lines(pages))[x] <= 1
  {
    var end := ts[|ts| - 1];
    WalkDescends(ts, end, room, None, limit, pages);
    DescendingIsNewestFirst(end, Lines(pages));
    forall x ensures multiset(Lines(pages))[x] == if x in Lines(pages) then 1 else 0 {
      DescendingOnce(end, Lines(pages), x);
    }
    forall x | x in ts[0] && ts[0][x].room == room ensures x in Lines(pages) {
      WalkCovers(ts, room, None, limit, pages, x);
    }
  }

  lemma {:induction false} FullPagesLength(limit: nat, pages: seq<seq<Id>>)
    requires forall i :: 0 <= i < |pages| ==> |pages[i]| == limit
    ensures |Lines(pages)| == limit * |pages|
  {
    if pages != [] {
      var n := |pages[1..]|;
      FullPagesLength(limit, pages[1..]);
      assert limit * (n + 1) == limit + limit * n;
    }
  }

  lemma {:induction false} UnfinishedIsFull(ts: seq<Messages>, room: Id, before: Option<Id>, limit: nat,
      pages: seq<seq<Id>>)
    requires limit > 0 && IsWalk(ts, room, before, limit, pages) && !Finished(limit, pages)
    ensures forall i :: 0 <= i < |pages| ==> |pages[i]| == limit
    decreases |pages|
  {
    if pages != [] {
      assert |pages[0]| == limit;
      UnfinishedIsFull(ts[1..], room, Some(Last(pages[0])), limit, pages[1..]);
      assert forall i :: 0 < i < |pages| ==> pages[i] == pages[1..][i - 1];
    }
  }

  ghost function History(t: Messages, room: Id): set<Id> {
    set id | id in t && t[id].room == room
  }

  /** On a history that stays as it is, a walk that has not finished has read only full
      pages, so it is finished after at most N / limit + 1 fetches; and a finished one
      has read the room's messages and nothing else. */
  lemma FixedHistory(t: Messages, n: nat, room: Id, limit: nat, pages: seq<seq<Id>>)
    requires limit > 0 && IsWalk(seq(n, _ => t), room, None, limit, pages)
    ensures !Finished(limit, pages) ==> limit * |pages| <= |History(t, room)|
    ensures Finished(limit, pages) ==> forall x :: x in Lines(pages) <==> x in History(t, room)
    ensures NewestFirst(t, Lines(pages))
  {
    var ts := seq(n, _ => t);
    WalkDescends(ts, t, room, None, limit, pages);
    DescendingIsNewestFirst(t, Lines(pages));
    DescendingBound(t, Lines(pages), History(t, room));
    if Finished(limit, pages) {
      forall x | x in History(t, room) ensures x in Lines(pages) {
        WalkCovers(ts, room, None, limit, pages, x);
      }
    } else {
      UnfinishedIsFull(ts, room, None, limit, pages);
      FullPagesLength(limit, pages);
    }
  }

  // --- what the other requests do to it -----------------------------------------------------

  /** Every request but a hard delete only adds to the messages. */
  lemma {:induction false} RequestsOnlyAdd(db: T.Db, reqs: seq<T.Request>)
    requires forall i :: 0 <= i < |reqs| ==> !(reqs[i].Account? && reqs[i].act.HardDeleteOp?)
    ensures Extends(db.messages, T.HandleAll(db, reqs).messages)
    decreases |reqs|
  {
    if reqs != [] {
      RequestOnlyAdds(db, reqs[0]);
      RequestsOnlyAdd(T.Handle(db, reqs[0]).db, reqs[1..]);
    }
  }

  lemma RequestOnlyAdds(db: T.Db, req: T.Request)
    requires !(req.Account? && req.act.HardDeleteOp?)
    ensures Extends(db.messages, T.Handle(db, req).db.messages)
  {
    match req
    case Membership(user, op) => MembershipLeavesMessages(db, user, op);
    case Route(user, room, op) => RouteOnlyAdds(db, user, room, op);
    case Account(op) => AccountLeavesMessages(db, op);
  }

  lemma MembershipLeavesMessages(db: T.Db, user: Id, op: T.MembershipOp)
    ensures T.ServeMembership(db, user, op).db.messages == db.messages
  {
    if op.CreateOp? {
      CreateLeavesMessages(db, user, T.Taken(op.draws), op.name, op.now);
    }
  }

  lemma RouteOnlyAdds(db: T.Db, user: Id, room: Id, op: T.RouteOp)
    ensures Extends(db.messages, T.ServeRoute(db, user, room, op).db.messages)
  {
  }

  lemma AccountLeavesMessages(db: T.Db, op: T.AccountOp)
    requires !op.HardDeleteOp?
    ensures T.ServeAccount(db, op).db.messages == db.messages
  {
  }

  lemma {:induction false} CreateLeavesMessages(db: T.Db, owner: Id, draws: seq<T.Draw>, name: Option<string>,
      now: Time)
    ensures T.Create(db, owner, draws, name, now).db.messages == db.messages
    decreases |draws|
  {
    if draws != [] && draws[0].code.Some? && T.Collides(db, owner, draws[0].id, draws[0].code.value) {
      CreateLeavesMessages(db, owner, draws[1..], name, now);
    }
  }

  /** When rows are deleted between two fetches, the survivors below the cursor are still
      selected if and only if the cursor's own row survives or there are none: a cursor
      whose author was hard deleted ends the history. */
  lemma SurvivorsSelectedIff(t: Messages, t': Messages, room: Id, cursor: Id)
    requires Extends(t', t)
    ensures (forall x :: x in t' && Matches(t, room, Some(cursor), x) ==> Matches(t', room, Some(cursor), x))
            <==> (cursor in t' || forall x :: x in t' ==> !Matches(t, room, Some(cursor), x))
  {
    forall x | x in t' && Matches(t, room, Some(cursor), x)
      ensures Matches(t', room, Some(cursor), x) <==> cursor in t'
    {
      assert t'[x] == t[x];
      assert cursor in t' ==> t'[cursor] == t[cursor];
    }
  }

  // --- the service ----------------------------------------------------------------------

  function PageSize(limit: int): (n: nat)
    ensures 1 <= n <= 100 && n == if 1 <= limit <= 100 then limit else 50
  {
    if limit <= 0 || limit > MAX_PAGE then DEFAULT_PAGE else limit
  }

  /** Reading back a whole history, asking for what is below the oldest line held. */
  method ReadBack(t: Messages, room: Id, limit: int) returns (lines: seq<Id>)
    ensures NewestFirst(t, lines)
    ensures forall x :: x in lines <==> x in t && t[x].room == room
  {
    lines := [];
    var before := None;
    var more := true;
    while more
      invariant Descending(t, lines)
      invariant lines == [] <==> before.None?
      invariant lines != [] ==> before == Some(Last(lines))
      invariant forall x :: x in lines ==> Matches(t, room, None, x)
      invariant forall x :: Matches(t, room, None, x) && x !in lines ==> more && Matches(t, room, before, x)
      decreases |History(t, room)| - |lines|, more
    {
      var page := SelectPage(t, room, before, PageSize(limit));
      ghost var was := lines;
      if page != [] {
        if lines != [] {
          Prepend(t, lines, page);
        }
        lines := lines + page;
        before := Some(Last(page));
        assert Last(page) in page;
        assert Last(lines) == Last(page);
      }
      more := |page| == PageSize(limit);
      DescendingBound(t, lines, History(t, room));
    }
    DescendingIsNewestFirst(t, lines);
  }
}
