/** The websocket client in its own form, an object that changes in place: the bounded
    queue, the one-shot close, the write pump and its drain loop. Every method performs
    exactly the events of `ClientModel` given for it, so the object is always in a state of
    a run of that machine. */
module RealtimeImpl {
  import opened Types
  import opened Frames
  import C = ClientModel

  /** What other goroutines do to a client. */
  datatype Outside = OtherEnqueue(frame: Frame) | OtherClose(why: string)

  /** A choice of the write pump's `select`: a case of its own, or another goroutine
      using the client in the meantime. Others may also use it while a write is under way. */
  datatype Pick =
    | CtxDone
    | ClosedReady(during: seq<seq<Outside>>)
    | SendReady(wrote: bool, meanwhile: seq<Outside>)
    | Tick(alive: bool)
    | Other(event: Outside)

  class Client {
    const user: Id
    const roomID: Id
    var send: seq<Frame>
    var closed: bool
    var reason: string
    // what the connection has carried so far
    var written: seq<Frame>

    // the client's number in the order of joins, and the model state it denotes
    ghost const id: nat
    ghost var state: C.ClientState

    ghost predicate Valid()
      reads this
    {
      && state.user == user && state.room == roomID
      && state.queue == send && state.closed == closed && state.reason == reason
      && state.delivered == written
    }

    constructor (user: Id, roomID: Id, ghost id: nat)
      ensures Valid() && state == C.NewClient(user, roomID)
      ensures this.user == user && this.roomID == roomID && this.id == id
    {
      this.user, this.roomID, this.id := user, roomID, id;
      send, closed, reason, written := [], false, "", [];
      state := C.NewClient(user, roomID);
    }

    /** `closeOnce`: the first reason wins. */
    method Close(why: string)
      requires Valid()
      modifies this
      ensures Valid() && state == C.CloseClient(old(state), why)
    {
      state := C.CloseClient(state, why);
      if !closed {
        reason := why;
        closed := true;
      }
    }

    /** Never blocks: a full buffer drops the frame and closes the slow consumer. */
    method Enqueue(f: Frame)
      requires Valid()
      modifies this
      ensures Valid() && state == C.EnqueueFrame(old(state), f) && C.Took(old(state), state, f)
    {
      if |send| < C.SEND_BUFFER {
        send := send + [f];
        state := C.EnqueueFrame(state, f);
      } else {
        state := state.(addressed := state.addressed + [f]);
        Close("send buffer full");
      }
    }

    /** Another goroutine enqueues or closes. */
    method Interfere(event: Outside)
      requires Valid()
      modifies this
      ensures Valid() && state == C.Apply(old(state), OutsideStep(event))
    {
      match event
      case OtherEnqueue(f) => Enqueue(f);
      case OtherClose(why) => Close(why);
    }

    /** Receives the oldest frame and writes it; `ok` is the result of the write, and
        `meanwhile` what others do until it is known. */
    method WriteNext(ok: bool, meanwhile: seq<Outside>)
      requires Valid() && send != [] && state.inFlight == [] && !state.pump.Stopped?
      modifies this
      ensures Valid() && state == C.Run(old(state), WriteSteps(ok, meanwhile))
    {
      var msg := send[0];
      send := send[1..];
      state := C.TakeFrame(state);
      ghost var taken := state;
      for i := 0 to |meanwhile|
        invariant Valid() && state == C.Run(taken, OutsideSteps(meanwhile[..i]))
        invariant state.inFlight == [msg] && state.pump == taken.pump
      {
        assert meanwhile[..i + 1] == meanwhile[..i] + [meanwhile[i]];
        OutsideOneMore(taken, meanwhile[..i], meanwhile[i]);
        Interfere(meanwhile[i]);
      }
      assert meanwhile[..|meanwhile|] == meanwhile;
      WriteRun(old(state), ok, meanwhile);
      if ok {
        written := written + [msg];
        state := C.FinishWrite(state, true);
      } else {
        Close("write error");
        state := state.(pump := C.Stopped(C.WriteFailed));
      }
    }

    /** The drain loop; `wrote(i)` is the result of its i-th write and `during[i]` what
        others do while it is under way. */
    method DrainSend(wrote: nat -> bool, during: seq<seq<Outside>>)
      requires Valid() && C.Inv(state) && state.pump == C.Draining && state.inFlight == []
      modifies this
      ensures Valid() && state == C.Run(old(state), DrainSteps(old(state), wrote, during, 0))
      ensures state.pump.Stopped?
    {
      ghost var all := DrainSteps(state, wrote, during, 0);
      var i := 0;
      while send != []
        invariant Valid() && state.pump == C.Draining && state.inFlight == []
        invariant C.Run(state, DrainSteps(state, wrote, during, i)) == C.Run(old(state), all)
        decreases if i < |during| then |during| - i else 0, |send|
      {
        ghost var before := state;
        var meanwhile := if i < |during| then during[i] else [];
        WriteEffect(before, wrote(i), meanwhile);
        WriteNext(wrote(i), meanwhile);
        if !wrote(i) {
          return;
        }
        C.RunAppend(before, WriteSteps(true, meanwhile), DrainSteps(state, wrote, during, i + 1));
        i := i + 1;
      }
      RunSingle(state, C.DrainEnd);
      state := state.(pump := C.Stopped(C.Drained));
    }

    /** One turn of the pump's `select`; a choice that is not ready is never made and
        leaves the client alone. */
    method Select(pick: Pick, wrote: nat -> bool) returns (returned: bool)
      requires Valid() && C.Inv(state) && state.pump == C.Running && state.inFlight == []
      modifies this
      ensures Valid() && state == C.Run(old(state), SelectSteps(old(state), pick, wrote))
      ensures if returned then state.pump.Stopped? else state.pump == C.Running && state.inFlight == []
    {
      ghost var before := state;
      returned := false;
      match pick {
        case CtxDone =>
          RunSingle(before, C.Cancel);
          state := state.(pump := C.Stopped(C.Cancelled));
          returned := true;
        case ClosedReady(during) =>
          if closed {
            state := state.(pump := C.Draining);
            C.StepKeeps(before, C.SeeClosed);
            RunSingle(before, C.SeeClosed);
            C.RunAppend(before, [C.SeeClosed], DrainSteps(state, wrote, during, 0));
            DrainSend(wrote, during);
            returned := true;
          }
        case SendReady(ok, meanwhile) =>
          if send != [] {
            WriteEffect(before, ok, meanwhile);
            WriteNext(ok, meanwhile);
            returned := !ok;
          }
        case Tick(alive) =>
          RunSingle(before, C.Ping(alive));
          if !alive {
            Close("ping failed");
            state := state.(pump := C.Stopped(C.PingFailed));
            returned := true;
          }
        case Other(event) =>
          RunSingle(before, OutsideStep(event));
          Interfere(event);
      }
    }

    /** The write pump over any list of choices of its `select`: whatever is chosen, the
        pump is a run of the client's state machine, so it keeps the queue lossless. */
    method WritePump(picks: seq<Pick>, wrote: nat -> bool)
      requires Valid() && C.Inv(state) && state.pump == C.Running && state.inFlight == []
      modifies this
      ensures Valid() && state == C.Run(old(state), PumpSteps(old(state), picks, wrote)) && C.Inv(state)
      ensures state.pump.Stopped? || (state.pump == C.Running && state.inFlight == [])
    {
      ghost var all := PumpSteps(state, picks, wrote);
      var i, returned := 0, false;
      while i < |picks| && !returned
        invariant i <= |picks|
        invariant C.Run(state, PumpSteps(state, picks[i..], wrote)) == C.Run(old(state), all)
        invariant Valid() && C.Inv(state)
        invariant if returned then state.pump.Stopped? else state.pump == C.Running && state.inFlight == []
      {
        ghost var before := state;
        ghost var steps := SelectSteps(before, picks[i], wrote);
        returned := Select(picks[i], wrote);
        assert picks[i..][1..] == picks[i + 1..];
        C.RunAppend(before, steps, PumpSteps(state, picks[i + 1..], wrote));
        C.RunKeeps(before, steps);
        i := i + 1;
      }
    }
  }

  function OutsideStep(event: Outside): C.ClientStep {
    match event case OtherEnqueue(f) => C.Enqueue(f) case OtherClose(why) => C.Close(why)
  }

  function OutsideSteps(events: seq<Outside>): seq<C.ClientStep> {
    if events == [] then [] else [OutsideStep(events[0])] + OutsideSteps(events[1..])
  }

  /** The events of one write. */
  function WriteSteps(ok: bool, meanwhile: seq<Outside>): seq<C.ClientStep> {
    [C.Take] + OutsideSteps(meanwhile) + [C.Written(ok)]
  }

  lemma {:induction false} OutsideOneMore(c: C.ClientState, events: seq<Outside>, event: Outside)
    ensures C.Run(c, OutsideSteps(events + [event])) == C.Apply(C.Run(c, OutsideSteps(events)), OutsideStep(event))
    decreases |events|
  {
    if events == [] {
      assert events + [event] == [event];
      assert OutsideSteps([event]) == [OutsideStep(event)];
      RunSingle(c, OutsideStep(event));
    } else {
      assert (events + [event])[1..] == events[1..] + [event];
      assert OutsideSteps(events)[1..] == OutsideSteps(events[1..]);
      assert OutsideSteps(events + [event])[1..] == OutsideSteps(events[1..] + [event]);
      OutsideOneMore(C.Apply(c, OutsideStep(events[0])), events[1..], event);
    }
  }

  /** Others neither write nor stop the pump. */
  lemma {:induction false} OutsideLeaves(c: C.ClientState, events: seq<Outside>)
    ensures var d := C.Run(c, OutsideSteps(events));
            && d.inFlight == c.inFlight && d.pump == c.pump && d.delivered == c.delivered
            && (events == [] ==> d == c) && (c.closed ==> d.closed)
    decreases |events|
  {
    if events != [] {
      assert OutsideSteps(events)[1..] == OutsideSteps(events[1..]);
      OutsideLeaves(C.Apply(c, OutsideStep(events[0])), events[1..]);
    }
  }

  lemma WriteRun(c: C.ClientState, ok: bool, meanwhile: seq<Outside>)
    ensures C.Run(c, WriteSteps(ok, meanwhile)) ==
            C.FinishWrite(C.Run(C.TakeFrame(c), OutsideSteps(meanwhile)), ok)
  {
    var outs := OutsideSteps(meanwhile);
    assert WriteSteps(ok, meanwhile) == [C.Take] + (outs + [C.Written(ok)]);
    C.RunAppend(c, [C.Take], outs + [C.Written(ok)]);
    RunSingle(c, C.Take);
    C.RunAppend(C.TakeFrame(c), outs, [C.Written(ok)]);
    RunSingle(C.Run(C.TakeFrame(c), outs), C.Written(ok));
  }

  /** A write delivers the oldest frame or stops the pump; alone it shortens the queue. */
  lemma WriteEffect(c: C.ClientState, ok: bool, meanwhile: seq<Outside>)
    requires !c.pump.Stopped? && c.inFlight == [] && c.queue != []
    ensures var d := C.Run(c, WriteSteps(ok, meanwhile));
            && (ok ==> d.pump == c.pump && d.inFlight == [] && d.delivered == c.delivered + [c.queue[0]])
            && (!ok ==> d.pump == C.Stopped(C.WriteFailed) && d.closed && d.delivered == c.delivered)
            && (meanwhile == [] ==> d.queue == c.queue[1..] && d.accepted == c.accepted)
            && (c.closed ==> d.closed)
  {
    WriteRun(c, ok, meanwhile);
    OutsideLeaves(C.TakeFrame(c), meanwhile);
  }

  /** The events of draining, from the `i`-th write on. */
  function DrainSteps(c: C.ClientState, wrote: nat -> bool, during: seq<seq<Outside>>, i: nat): seq<C.ClientStep>
    requires c.pump == C.Draining && c.inFlight == []
    decreases if i < |during| then |during| - i else 0, |c.queue|
  {
    if c.queue == [] then [C.DrainEnd]
    else
      var meanwhile := if i < |during| then during[i] else [];
      WriteEffect(c, wrote(i), meanwhile);
      var steps := WriteSteps(wrote(i), meanwhile);
      if wrote(i) then steps + DrainSteps(C.Run(c, steps), wrote, during, i + 1) else steps
  }

  /** However others use the client meanwhile, the drain loop stops, has drained exactly if
      none of its writes failed, and has then delivered every frame accepted by that time. */
  lemma {:induction false} DrainDelivers(c: C.ClientState, wrote: nat -> bool, during: seq<seq<Outside>>, i: nat)
    requires C.Inv(c) && c.closed && c.pump == C.Draining && c.inFlight == []
    ensures var d := C.Run(c, DrainSteps(c, wrote, during, i));
            && d.pump.Stopped? && d.closed && d.delivered <= d.accepted && c.delivered <= d.delivered
            && var n := |d.delivered| - |c.delivered|;
            && (forall k: nat :: i <= k < i + n ==> wrote(k))
            && (d.pump == C.Stopped(C.Drained) || (d.pump == C.Stopped(C.WriteFailed) && !wrote(i + n)))
            && (d.pump == C.Stopped(C.Drained) ==> d.queue == [] && d.delivered == d.accepted)
    decreases if i < |during| then |during| - i else 0, |c.queue|
  {
    if c.queue == [] {
      RunSingle(c, C.DrainEnd);
      assert c.delivered + [] + [] == c.delivered;
    } else {
      var meanwhile := if i < |during| then during[i] else [];
      var steps := WriteSteps(wrote(i), meanwhile);
      var d := C.Run(c, steps);
      WriteEffect(c, wrote(i), meanwhile);
      C.RunKeeps(c, steps);
      if wrote(i) {
        C.RunAppend(c, steps, DrainSteps(d, wrote, during, i + 1));
        DrainDelivers(d, wrote, during, i + 1);
      }
    }
  }

  /** The writes among some events, whether or not they succeed. */
  function Writes(steps: seq<C.ClientStep>): nat {
    if steps == [] then 0 else (if steps[0].Written? then 1 else 0) + Writes(steps[1..])
  }

  lemma {:induction false} WritesAppend(a: seq<C.ClientStep>, b: seq<C.ClientStep>)
    ensures Writes(a + b) == Writes(a) + Writes(b)
  {
    if a == [] {
      assert a + b == b;
    } else {
      assert (a + b)[1..] == a[1..] + b;
      WritesAppend(a[1..], b);
    }
  }

  lemma OneWrite(ok: bool)
    ensures Writes(WriteSteps(ok, [])) == 1
  {
    assert WriteSteps(ok, []) == [C.Take] + [C.Written(ok)];
    WritesAppend([C.Take], [C.Written(ok)]);
  }

  /** With nobody else enqueuing it makes at most one write for each queued frame, 32 in all,
      a last one that fails included, and drains if and only if all of these succeed. */
  lemma {:induction false} QuietDrainIsBounded(c: C.ClientState, wrote: nat -> bool, i: nat)
    requires C.Inv(c) && c.closed && c.pump == C.Draining && c.inFlight == []
    ensures Writes(DrainSteps(c, wrote, [], i)) <= |c.queue| <= 32
    ensures var d := C.Run(c, DrainSteps(c, wrote, [], i));
            && d.accepted == c.accepted
            && (d.pump == C.Stopped(C.Drained) <==> forall k: nat :: i <= k < i + |c.queue| ==> wrote(k))
    decreases |c.queue|
  {
    if c.queue == [] {
      RunSingle(c, C.DrainEnd);
    } else {
      var steps := WriteSteps(wrote(i), []);
      var d := C.Run(c, steps);
      WriteEffect(c, wrote(i), []);
      OneWrite(wrote(i));
      C.RunKeeps(c, steps);
      if wrote(i) {
        C.RunAppend(c, steps, DrainSteps(d, wrote, [], i + 1));
        WritesAppend(steps, DrainSteps(d, wrote, [], i + 1));
        QuietDrainIsBounded(d, wrote, i + 1);
      }
    }
  }

  /** The events of one choice of the pump's `select`. */
  function SelectSteps(c: C.ClientState, pick: Pick, wrote: nat -> bool): seq<C.ClientStep>
    requires c.pump == C.Running && c.inFlight == []
  {
    match pick
    case CtxDone => [C.Cancel]
    case ClosedReady(during) =>
      if c.closed then [C.SeeClosed] + DrainSteps(c.(pump := C.Draining), wrote, during, 0) else []
    case SendReady(ok, meanwhile) => if c.queue != [] then WriteSteps(ok, meanwhile) else []
    case Tick(alive) => [C.Ping(alive)]
    case Other(event) => [OutsideStep(event)]
  }

  /** The events of a list of choices; the pump returns as soon as it has stopped. */
  function PumpSteps(c: C.ClientState, picks: seq<Pick>, wrote: nat -> bool): seq<C.ClientStep>
    decreases |picks|
  {
    if picks == [] || c.pump != C.Running || c.inFlight != [] then []
    else
      var steps := SelectSteps(c, picks[0], wrote);
      steps + PumpSteps(C.Run(c, steps), picks[1..], wrote)
  }

  lemma RunSingle(c: C.ClientState, a: C.ClientStep)
    ensures C.Run(c, [a]) == C.Apply(c, a)
  {
    assert [a][1..] == [];
  }
}
