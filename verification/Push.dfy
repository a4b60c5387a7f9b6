/** Push notifications: the batches of a send, the tickets that come back, and the
    broadcast that prunes the tokens found dead and records the counts. */
module Push {
  import Sorted

  const BATCH_SIZE: nat := 100
  const MAX_TITLE: nat := 80
  const MAX_BODY: nat := 240

  type Token = string

  datatype Ticket = Ticket(status: string, code: string)

  /** The answer to one POST. `TransportError` is every error the post returns: of the
      transport, a status of 400 or more, a body that does not parse, or one with `errors`. */
  datatype Reply = TransportError | Tickets(data: seq<Ticket>)

  datatype SendResult = SendResult(delivered: nat, failed: nat, invalid: seq<Token>)

  const NOTHING: SendResult := SendResult(0, 0, [])

  predicate Accepted(tk: Ticket) { tk.status == "ok" }

  predicate Refused(tk: Ticket) { !Accepted(tk) }

  predicate Dead(tk: Ticket) { Refused(tk) && tk.code == "DeviceNotRegistered" }

  // --- the specification -----------------------------------------------------------------

  function Plus(a: SendResult, b: SendResult): SendResult {
    SendResult(a.delivered + b.delivered, a.failed + b.failed, a.invalid + b.invalid)
  }

  /** The count of tickets a predicate holds of. */
  function Count(p: Ticket -> bool, data: seq<Ticket>): nat {
    if data == [] then 0 else (if p(data[0]) then 1 else 0) + Count(p, data[1..])
  }

  /** The tokens of the batch whose ticket says the device is gone; a ticket beyond the
      batch has no token. */
  function DeadIn(batch: seq<Token>, data: seq<Ticket>): seq<Token> {
    if batch == [] || data == [] then []
    else (if Dead(data[0]) then [batch[0]] else []) + DeadIn(batch[1..], data[1..])
  }

  /** What one batch and its reply add. */
  function Settle(batch: seq<Token>, reply: Reply): SendResult {
    match reply
    case TransportError => SendResult(0, |batch|, [])
    case Tickets(data) =>
      SendResult(Count(Accepted, data), Count(Refused, data), DeadIn(batch, data))
  }

  function SettleAll(batches: seq<seq<Token>>, replies: nat -> Reply): SendResult {
    if batches == [] then NOTHING
    else Plus(SettleAll(batches[..|batches| - 1], replies),
              Settle(batches[|batches| - 1], replies(|batches| - 1)))
  }

  function Joined(batches: seq<seq<Token>>): seq<Token> {
    if batches == [] then [] else Joined(batches[..|batches| - 1]) + batches[|batches| - 1]
  }

  /** Consecutive batches that cover the list, each full but perhaps the last. */
  ghost predicate Chunks(batches: seq<seq<Token>>, tokens: seq<Token>) {
    && Joined(batches) == tokens
    && (forall i :: 0 <= i < |batches| ==> 1 <= |batches[i]| <= 100)
    && (forall i :: 0 <= i < |batches| - 1 ==> |batches[i]| == 100)
  }

  // --- the client ---------------------------------------------------------------------------

  lemma CountAppend(p: Ticket -> bool, data: seq<Ticket>, tk: Ticket)
    ensures Count(p, data + [tk]) == Count(p, data) + if p(tk) then 1 else 0
  {
    if data == [] {
      assert data + [tk] == [tk];
    } else {
      assert (data + [tk])[1..] == data[1..] + [tk];
      CountAppend(p, data[1..], tk);
    }
  }

  lemma {:induction false} DeadInAppend(batch: seq<Token>, data: seq<Ticket>, tk: Ticket)
    ensures DeadIn(batch, data + [tk]) ==
            DeadIn(batch, data) + if Dead(tk) && |data| < |batch| then [batch[|data|]] else []
    decreases |data|
  {
    if data == [] {
      assert (data + [tk])[1..] == [];
    } else {
      assert (data + [tk])[1..] == data[1..] + [tk];
      if batch != [] {
        DeadInAppend(batch[1..], data[1..], tk);
      }
    }
  }

  /** The ticket loop of one batch. */
  method Tally(batch: seq<Token>, data: seq<Ticket>, res: SendResult) returns (out: SendResult)
    ensures out == Plus(res, Settle(batch, Tickets(data)))
  {
    out := res;
    for i := 0 to |data|
      invariant out == Plus(res, Settle(batch, Tickets(data[..i])))
    {
      assert data[..i + 1] == data[..i] + [data[i]];
      CountAppend(Accepted, data[..i], data[i]);
      CountAppend(Refused, data[..i], data[i]);
      DeadInAppend(batch, data[..i], data[i]);
      if Accepted(data[i]) {
        out := out.(delivered := out.delivered + 1);
      } else {
        out := out.(failed := out.failed + 1);
        if data[i].code == "DeviceNotRegistered" && i < |batch| {
          out := out.(invalid := out.invalid + [batch[i]]);
        }
      }
    }
    assert data[..|data|] == data;
  }

  lemma OneMoreBatch(batches: seq<seq<Token>>, batch: seq<Token>, replies: nat -> Reply)
    ensures Joined(batches + [batch]) == Joined(batches) + batch
    ensures SettleAll(batches + [batch], replies) == Plus(SettleAll(batches, replies), Settle(batch,
        replies(|batches|)))
  {
    assert (batches + [batch])[..|batches|] == batches;
  }

  ghost predicate AllFull(batches: seq<seq<Token>>) {
    forall i :: 0 <= i < |batches| ==> |batches[i]| == BATCH_SIZE
  }

  /** A batch goes on top of full ones. */
  lemma AddChunk(batches: seq<seq<Token>>, done: seq<Token>, batch: seq<Token>, replies: nat -> Reply)
    requires Joined(batches) == done && AllFull(batches) && 1 <= |batch| <= BATCH_SIZE
    ensures Chunks(batches + [batch], done + batch)
    ensures |batch| == BATCH_SIZE ==> AllFull(batches + [batch])
  {
    OneMoreBatch(batches, batch, replies);
  }

  /** What the reply to one post adds to the result. */
  method Book(batch: seq<Token>, reply: Reply, res: SendResult) returns (out: SendResult)
    ensures out == Plus(res, Settle(batch, reply))
  {
    match reply
    case TransportError => out := res.(failed := res.failed + |batch|);
    case Tickets(data) => out := Tally(batch, data, res);
  }

  /** `Send`: the batches it posts and what it reports, given the reply to each post. */
  method Send(tokens: seq<Token>, replies: nat -> Reply) returns (res: SendResult, posted: seq<seq<Token>>)
    ensures Chunks(posted, tokens)
    ensures res == SettleAll(posted, replies)
    ensures res.delivered == |TicketsOf(|posted|, replies, true)|
    ensures res.failed == |TicketsOf(|posted|, replies, false)| + |Unposted(posted, replies)|
  {
    res, posted := NOTHING, [];
    var start := 0;
    while start < |tokens|
      invariant 0 <= start
      invariant start < |tokens| ==> AllFull(posted) && Joined(posted) == tokens[..start]
      invariant start >= |tokens| ==> Chunks(posted, tokens)
      invariant res == SettleAll(posted, replies)
      decreases |tokens| - start
    {
      var end := if start + BATCH_SIZE > |tokens| then |tokens| else start + BATCH_SIZE;
      var batch := tokens[start..end];
      AddChunk(posted, tokens[..start], batch, replies);
      assert tokens[..start] + batch == tokens[..end];
      OneMoreBatch(posted, batch, replies);
      res := Book(batch, replies(|posted|), res);
      posted := posted + [batch];
      start := start + BATCH_SIZE;
    }
    CountedExactly(posted, replies);
  }

  // --- conservation ---------------------------------------------------------------------------

  /** The reports a batch gives rise to: one for each message when the post failed, one
      for each ticket otherwise. */
  function Reports(batch: seq<Token>, reply: Reply): nat {
    match reply case TransportError => |batch| case Tickets(data) => |data|
  }

  function AllReports(batches: seq<seq<Token>>, replies: nat -> Reply): nat {
    if batches == [] then 0
    else AllReports(batches[..|batches| - 1], replies) + Reports(batches[|batches| - 1], replies(|batches| - 1))
  }

  ghost predicate OneTicketEach(batches: seq<seq<Token>>, replies: nat -> Reply) {
    forall i :: 0 <= i < |batches| ==> Reports(batches[i], replies(i)) == |batches[i]|
  }

  lemma {:induction false} CountSplits(data: seq<Ticket>)
    ensures Count(Accepted, data) + Count(Refused, data) == |data|
  {
    if data != [] {
      CountSplits(data[1..]);
    }
  }

  /** Every report is counted exactly once, as delivered or as failed. */
  lemma {:induction false} ReportsCounted(batches: seq<seq<Token>>, replies: nat -> Reply)
    ensures var r := SettleAll(batches, replies); r.delivered + r.failed == AllReports(batches, replies)
  {
    if batches != [] {
      ReportsCounted(batches[..|batches| - 1], replies);
      var reply := replies(|batches| - 1);
      if reply.Tickets? {
        CountSplits(reply.data);
      }
    }
  }

  lemma {:induction false} TicketsMatch(batches: seq<seq<Token>>, replies: nat -> Reply)
    requires OneTicketEach(batches, replies)
    ensures AllReports(batches, replies) == |Joined(batches)|
  {
    if batches != [] {
      var before := batches[..|batches| - 1];
      assert forall i :: 0 <= i < |before| ==> Reports(before[i], replies(i)) == |before[i]|;
      TicketsMatch(before, replies);
    }
  }

  /** With one ticket for each message of a batch that got through, delivered plus failed
      is the number of tokens, whatever mix of batches failed. */
  lemma Conserved(tokens: seq<Token>, batches: seq<seq<Token>>, replies: nat -> Reply)
    requires Chunks(batches, tokens) && OneTicketEach(batches, replies)
    ensures var r := SettleAll(batches, replies); r.delivered + r.failed == |tokens|
  {
    ReportsCounted(batches, replies);
    TicketsMatch(batches, replies);
  }

  /** When at most one ticket comes back for each message, the recipients are all
      accounted for if and only if none is missing. */
  lemma {:induction false} ShortReplies(batches: seq<seq<Token>>, replies: nat -> Reply)
    requires forall i :: 0 <= i < |batches| ==> Reports(batches[i], replies(i)) <= |batches[i]|
    ensures AllReports(batches, replies) <= |Joined(batches)|
    ensures AllReports(batches, replies) == |Joined(batches)| <==> OneTicketEach(batches, replies)
  {
    if batches != [] {
      var before, n := batches[..|batches| - 1], |batches| - 1;
      assert forall i :: 0 <= i < n ==> before[i] == batches[i];
      ShortReplies(before, replies);
      if OneTicketEach(batches, replies) {
        assert forall i :: 0 <= i < n ==> Reports(before[i], replies(i)) == |before[i]|;
        assert Reports(batches[n], replies(n)) == |batches[n]|;
      }
    }
  }

  lemma ConservedIff(tokens: seq<Token>, batches: seq<seq<Token>>, replies: nat -> Reply)
    requires Chunks(batches, tokens)
    requires forall i :: 0 <= i < |batches| ==> Reports(batches[i], replies(i)) <= |batches[i]|
    ensures var r := SettleAll(batches, replies);
            r.delivered + r.failed == |tokens| <==> OneTicketEach(batches, replies)
  {
    ReportsCounted(batches, replies);
    ShortReplies(batches, replies);
  }

  lemma NoTickets(res: SendResult, batch: seq<Token>)
    ensures Plus(res, Settle(batch, Tickets([]))) == res
  {
  }

  /** A reply that is accepted but holds no tickets, an empty object or an empty `data` list
      with a success status, loses every recipient of its batch, wherever in the send the
      batch comes. Request-level errors are not this case: they are a `TransportError`. */
  lemma RecipientsLost(batches: seq<seq<Token>>, batch: seq<Token>, replies: nat -> Reply)
    requires AllFull(batches) && 1 <= |batch| <= BATCH_SIZE && replies(|batches|) == Tickets([])
    ensures Chunks(batches + [batch], Joined(batches) + batch)
    ensures SettleAll(batches + [batch], replies) == SettleAll(batches, replies)
  {
    AddChunk(batches, Joined(batches), batch, replies);
    OneMoreBatch(batches, batch, replies);
    NoTickets(SettleAll(batches, replies), batch);
  }

  // --- what was delivered and what failed, ticket by ticket --------------------------------------

  /** The places of a reply whose status satisfies the flag: the `ok` ones or the others. */
  ghost function Places(data: seq<Ticket>, ok: bool): set<int> {
    set k | 0 <= k < |data| && (data[k].status == "ok") == ok
  }

  /** The tickets of the send, as pairs of batch and place. */
  ghost function TicketsOf(n: nat, replies: nat -> Reply, ok: bool): set<(int, int)> {
    set i: nat, k: int | 0 <= i < n && replies(i).Tickets? && k in Places(replies(i).data, ok) :: (i, k)
  }

  /** The messages of posts that failed, as pairs of batch and place. */
  ghost function Unposted(batches: seq<seq<Token>>, replies: nat -> Reply): set<(int, int)> {
    set i: nat, k: int | 0 <= i < |batches| && replies(i).TransportError? && 0 <= k < |batches[i]| :: (i, k)
  }

  lemma PlacesOneMore(data: seq<Ticket>, tk: Ticket, ok: bool)
    ensures |Places(data + [tk], ok)| == |Places(data, ok)| + if (tk.status == "ok") == ok then 1 else 0
  {
    var more := if (tk.status == "ok") == ok then {|data|} else {};
    assert Places(data + [tk], ok) == Places(data, ok) + more;
  }

  lemma {:induction false} CountIsPlaces(data: seq<Ticket>)
    ensures Count(Accepted, data) == |Places(data, true)| && Count(Refused, data) == |Places(data, false)|
  {
    if data == [] {
      assert Places(data, true) == {} && Places(data, false) == {};
    } else {
      var before, tk := data[..|data| - 1], data[|data| - 1];
      assert data == before + [tk];
      CountIsPlaces(before);
      CountAppend(Accepted, before, tk);
      CountAppend(Refused, before, tk);
      PlacesOneMore(before, tk, true);
      PlacesOneMore(before, tk, false);
    }
  }

  /** Pairs with a fixed first part are as many as their second parts. */
  ghost function Row(i: nat, ks: set<int>): set<(int, int)> {
    set k | k in ks :: (i, k)
  }

  lemma {:induction false} RowSize(i: nat, ks: set<int>)
    ensures |Row(i, ks)| == |ks|
    decreases |ks|
  {
    if |ks| == 0 {
      assert Row(i, ks) == {};
    } else {
      var k := Sorted.AnyElement(ks);
      RowSize(i, ks - {k});
      assert Row(i, ks) == Row(i, ks - {k}) + {(i, k)};
    }
  }

  lemma TicketsOneMore(n: nat, replies: nat -> Reply, ok: bool)
    ensures |TicketsOf(n + 1, replies, ok)| ==
            |TicketsOf(n, replies, ok)| + if replies(n).Tickets? then |Places(replies(n).data, ok)| else 0
  {
    var last := if replies(n).Tickets? then Row(n, Places(replies(n).data, ok)) else {};
    if replies(n).Tickets? {
      RowSize(n, Places(replies(n).data, ok));
    }
    assert TicketsOf(n + 1, replies, ok) == TicketsOf(n, replies, ok) + last;
  }

  ghost function Range(n: nat): (r: set<int>)
    ensures (forall k :: k in r <==> 0 <= k < n) && |r| == n
  {
    if n == 0 then {} else Range(n - 1) + {n - 1}
  }

  lemma UnpostedOneMore(batches: seq<seq<Token>>, replies: nat -> Reply)
    requires batches != []
    ensures var n := |batches| - 1;
            |Unposted(batches, replies)| ==
            |Unposted(batches[..n], replies)| + if replies(n).TransportError? then |batches[n]| else 0
  {
    var n := |batches| - 1;
    var ks := Range(|batches[n]|);
    var last := if replies(n).TransportError? then Row(n, ks) else {};
    RowSize(n, ks);
    assert Unposted(batches, replies) == Unposted(batches[..n], replies) + last;
  }

  /** Delivered is the number of tickets with status `ok`; failed is the number of the other
      tickets and of the messages whose post failed. */
  lemma {:induction false} CountedExactly(batches: seq<seq<Token>>, replies: nat -> Reply)
    ensures var r := SettleAll(batches, replies);
            && r.delivered == |TicketsOf(|batches|, replies, true)|
            && r.failed == |TicketsOf(|batches|, replies, false)| + |Unposted(batches, replies)|
  {
    if batches == [] {
      assert TicketsOf(0, replies, true) == {} && TicketsOf(0, replies, false) == {};
      assert Unposted(batches, replies) == {};
    } else {
      var n := |batches| - 1;
      CountedExactly(batches[..n], replies);
      TicketsOneMore(n, replies, true);
      TicketsOneMore(n, replies, false);
      UnpostedOneMore(batches, replies);
      if replies(n).Tickets? {
        CountIsPlaces(replies(n).data);
      }
    }
  }

  // --- invalid tokens --------------------------------------------------------------------------

  /** The ticket for this place of the batch says the device is gone. */
  predicate FoundDead(batch: seq<Token>, reply: Reply, k: int) {
    && reply.Tickets? && 0 <= k < |batch| && k < |reply.data|
    && reply.data[k].status != "ok" && reply.data[k].code == "DeviceNotRegistered"
  }

  lemma {:induction false} DeadInExactly(batch: seq<Token>, data: seq<Ticket>, t: Token)
    ensures t in DeadIn(batch, data) <==> exists k :: FoundDead(batch, Tickets(data), k) && batch[k] == t
    decreases |data|
  {
    if batch != [] && data != [] {
      DeadInExactly(batch[1..], data[1..], t);
      if t in DeadIn(batch[1..], data[1..]) {
        var k :| FoundDead(batch[1..], Tickets(data[1..]), k) && batch[1..][k] == t;
        assert FoundDead(batch, Tickets(data), k + 1) && batch[k + 1] == t;
      }
      if k :| FoundDead(batch, Tickets(data), k) && batch[k] == t {
        if k > 0 {
          assert FoundDead(batch[1..], Tickets(data[1..]), k - 1) && batch[1..][k - 1] == t;
        } else {
          assert Dead(data[0]);
        }
      }
    }
  }

  /** The token is reported dead somewhere in the send. */
  ghost predicate ReportedDead(batches: seq<seq<Token>>, replies: nat -> Reply, t: Token) {
    exists i, k :: 0 <= i < |batches| && FoundDead(batches[i], replies(i), k) && batches[i][k] == t
  }

  lemma SettleInvalid(batch: seq<Token>, reply: Reply, t: Token)
    ensures t in Settle(batch, reply).invalid <==> exists k :: FoundDead(batch, reply, k) && batch[k] == t
  {
    if reply.Tickets? {
      DeadInExactly(batch, reply.data, t);
    }
  }

  /** The invalid tokens are exactly the ones a ticket reported as not registered. */
  lemma {:induction false} InvalidExactly(batches: seq<seq<Token>>, replies: nat -> Reply, t: Token)
    ensures t in SettleAll(batches, replies).invalid <==> ReportedDead(batches, replies, t)
  {
    if batches != [] {
      var n := |batches| - 1;
      var before := batches[..n];
      InvalidExactly(before, replies, t);
      SettleInvalid(batches[n], replies(n), t);
      if ReportedDead(before, replies, t) {
        var i, k :| 0 <= i < |before| && FoundDead(before[i], replies(i), k) && before[i][k] == t;
        assert FoundDead(batches[i], replies(i), k) && batches[i][k] == t;
      }
      if i, k :| 0 <= i < |batches| && FoundDead(batches[i], replies(i), k) && batches[i][k] == t {
        if i < n {
          assert FoundDead(before[i], replies(i), k) && before[i][k] == t;
        }
      }
    }
  }

  lemma {:induction false} DeadAreSent(batch: seq<Token>, data: seq<Ticket>)
    ensures multiset(DeadIn(batch, data)) <= multiset(batch)
    ensures |DeadIn(batch, data)| <= Count(Refused, data)
    decreases |data|
  {
    if batch != [] && data != [] {
      DeadAreSent(batch[1..], data[1..]);
      assert batch == [batch[0]] + batch[1..];
    }
  }

  /** For any shape of reply they come from the list, each at most as often as it is
      there, and are no more than the failures. */
  lemma {:induction false} InvalidFromList(batches: seq<seq<Token>>, replies: nat -> Reply)
    ensures var r := SettleAll(batches, replies);
            multiset(r.invalid) <= multiset(Joined(batches)) && |r.invalid| <= r.failed
  {
    if batches != [] {
      var n := |batches| - 1;
      InvalidFromList(batches[..n], replies);
      if replies(n).Tickets? {
        DeadAreSent(batches[n], replies(n).data);
      }
    }
  }

  // --- the broadcast -----------------------------------------------------------------------------

  datatype Record = Record(title: string, text: string, recipients: nat, delivered: nat, failed: nat)

  datatype Page =
    | BadInput
    | NoDevices
    | InsertFailed
    | Summary(recipients: nat, delivered: nat, failed: nat, pruned: nat)

  function Cut(s: string, n: nat): string {
    if |s| > n then s[..n] else s
  }

  /** The tokens a list of a set holds, each once. */
  ghost predicate Enumerates(list: seq<Token>, tokens: set<Token>) {
    multiset(list) == multiset(tokens)
  }

  lemma {:induction false} PrunedCount(tokens: set<Token>, dead: seq<Token>)
    requires multiset(dead) <= multiset(tokens)
    ensures |tokens - set t | t in dead| == |tokens| - |dead|
    decreases |dead|
  {
    if dead == [] {
      assert tokens - (set t | t in dead) == tokens;
    } else {
      var last, rest := dead[|dead| - 1], dead[..|dead| - 1];
      assert dead == rest + [last];
      assert multiset(dead)[last] <= multiset(tokens)[last] <= 1;
      assert multiset(dead) == multiset(rest) + multiset{last};
      PrunedCount(tokens, rest);
      assert last in multiset(dead) && last in tokens;
      assert last !in rest;
      assert tokens - (set t | t in dead) == (tokens - set t | t in rest) - {last};
    }
  }

  class Broadcaster {
    /** Primary keys of push_tokens, and the broadcasts table. */
    var tokens: set<Token>
    var log: seq<Record>

    constructor ()
      ensures tokens == {} && log == []
    {
      tokens, log := {}, [];
    }

    method AllTokens() returns (list: seq<Token>)
      ensures Enumerates(list, tokens)
    {
      list := [];
      var rest := tokens;
      while |rest| > 0
        invariant rest <= tokens && multiset(list) == multiset(tokens - rest)
        decreases |rest|
      {
        ghost var some := Sorted.AnyElement(rest);
        var t :| t in rest;
        assert tokens - (rest - {t}) == (tokens - rest) + {t};
        list := list + [t];
        rest := rest - {t};
      }
      assert tokens - rest == tokens;
    }

    method DeleteTokens(dead: seq<Token>)
      modifies this`tokens
      ensures tokens == old(tokens) - set t | t in dead
    {
      var i := 0;
      while i < |dead|
        invariant 0 <= i <= |dead|
        invariant tokens == old(tokens) - set t | t in dead[..i]
      {
        tokens := tokens - {dead[i]};
        assert dead[..i + 1] == dead[..i] + [dead[i]];
        i := i + 1;
      }
      assert dead[..|dead|] == dead;
    }

    /** The whole broadcast. The reply to each post and whether the prune and the insert
        go through are inputs; a failing prune is ignored. */
    method BroadcastSend(title: string, text: string, replies: nat -> Reply, pruneOk: bool, insertOk: bool)
      returns (page: Page, posted: seq<seq<Token>>)
      modifies this
      ensures title == "" || text == "" ==> page == BadInput
      ensures title != "" && text != "" && old(tokens) == {} ==> page == NoDevices
      ensures page.BadInput? || page.NoDevices? ==> posted == [] && tokens == old(tokens) && log == old(log)
      ensures title != "" && text != "" && old(tokens) != {} ==>
                var r := SettleAll(posted, replies);
                && (exists list :: Enumerates(list, old(tokens)) && Chunks(posted, list))
                && (forall t :: t in tokens <==> t in old(tokens) && !(pruneOk && ReportedDead(posted, replies, t)))
                && (pruneOk ==> |tokens| + |r.invalid| == |old(tokens)|)
                && |r.invalid| <= r.failed
                && r.delivered == |TicketsOf(|posted|, replies, true)|
                && r.failed == |TicketsOf(|posted|, replies, false)| + |Unposted(posted, replies)|
                && (OneTicketEach(posted, replies) ==> r.delivered + r.failed == |old(tokens)|)
                && (if insertOk then
                      && page == Summary(|old(tokens)|, r.delivered, r.failed, |r.invalid|)
                      && log == old(log) + [Record(if |title| <= 80 then title else title[..80],
                                                   if |text| <= 240 then text else text[..240],
                                                   |old(tokens)|, r.delivered, r.failed)]
                    else page == InsertFailed && log == old(log))
    {
      posted := [];
      if title == "" || text == "" {
        return BadInput, [];
      }
      var list := AllTokens();
      if |list| == 0 {
        assert |multiset(list)| == |tokens|;
        return NoDevices, [];
      }
      assert |list| == |multiset(tokens)| == |tokens|;
      var res;
      res, posted := Send(list, replies);
      BroadcastFacts(tokens, list, posted, replies);
      if |res.invalid| > 0 && pruneOk {
        DeleteTokens(res.invalid);
      }
      if !insertOk {
        return InsertFailed, posted;
      }
      log := log + [Record(Cut(title, MAX_TITLE), Cut(text, MAX_BODY), |list|, res.delivered, res.failed)];
      page := Summary(|list|, res.delivered, res.failed, |res.invalid|);
    }
  }

  lemma BroadcastFacts(tokens: set<Token>, list: seq<Token>, posted: seq<seq<Token>>, replies: nat -> Reply)
    requires Enumerates(list, tokens) && Chunks(posted, list)
    ensures var r := SettleAll(posted, replies);
            && (forall t :: t in r.invalid <==> ReportedDead(posted, replies, t))
            && |tokens - set t | t in r.invalid| == |tokens| - |r.invalid|
            && |r.invalid| <= r.failed
            && (OneTicketEach(posted, replies) ==> r.delivered + r.failed == |list|)
  {
    forall t ensures t in SettleAll(posted, replies).invalid <==> ReportedDead(posted, replies, t) {
      InvalidExactly(posted, replies, t);
    }
    InvalidFromList(posted, replies);
    PrunedCount(tokens, SettleAll(posted, replies).invalid);
    if OneTicketEach(posted, replies) {
      Conserved(list, posted, replies);
    }
  }
}
