/** One websocket client as a state machine: the bounded send queue, the one-shot
    close and the write pump, at the granularity of single channel operations.
    `addressed`, `accepted`, `delivered` and `mark` are history: every frame given to
    `enqueue`, the ones the queue took, the ones written to the socket, and how many
    had been accepted when the client was closed. */
module ClientModel {
  import opened Types
  import opened Frames

  const SEND_BUFFER: nat := 32

  datatype Outcome = Drained | WriteFailed | PingFailed | Cancelled

  datatype Pump = Running | Draining | Stopped(how: Outcome)

  datatype ClientState = ClientState(
    user: Id,
    room: Id,
    queue: seq<Frame>,
    inFlight: seq<Frame>,
    delivered: seq<Frame>,
    closed: bool,
    reason: string,
    pump: Pump,
    addressed: seq<Frame>,
    accepted: seq<Frame>,
    mark: nat)

  function NewClient(user: Id, room: Id): ClientState {
    ClientState(user, room, [], [], [], false, "", Running, [], [], 0)
  }

  /** What can happen to a client. The write of a frame is two events, taking it off
      the queue and learning the result, so that frames may be queued in between. */
  datatype ClientStep =
    | Enqueue(frame: Frame)
    | Close(why: string)
    | Take
    | Written(ok: bool)
    | Ping(alive: bool)
    | SeeClosed
    | Cancel
    | DrainEnd

  function CloseClient(c: ClientState, why: string): ClientState {
    if c.closed then c else c.(closed := true, reason := why, mark := |c.accepted|)
  }

  function EnqueueFrame(c: ClientState, f: Frame): ClientState {
    if |c.queue| < SEND_BUFFER then
      c.(queue := c.queue + [f], accepted := c.accepted + [f], addressed := c.addressed + [f])
    else
      CloseClient(c.(addressed := c.addressed + [f]), "send buffer full")
  }

  /** The pump, or its drain loop, receives the oldest queued frame. */
  function TakeFrame(c: ClientState): ClientState {
    if !c.pump.Stopped? && c.inFlight == [] && c.queue != [] then
      c.(inFlight := [c.queue[0]], queue := c.queue[1..])
    else c
  }

  function FinishWrite(c: ClientState, ok: bool): ClientState {
    if c.pump.Stopped? || c.inFlight == [] then c
    else if ok then c.(delivered := c.delivered + c.inFlight, inFlight := [])
    else CloseClient(c, "write error").(pump := Stopped(WriteFailed))
  }

  /** The pump is at its `select`. */
  predicate Selecting(c: ClientState) {
    c.pump == Running && c.inFlight == []
  }

  function Apply(c: ClientState, step: ClientStep): ClientState {
    match step
    case Enqueue(f) => EnqueueFrame(c, f)
    case Close(why) => CloseClient(c, why)
    case Take => TakeFrame(c)
    case Written(ok) => FinishWrite(c, ok)
    case Ping(alive) =>
      if Selecting(c) && !alive then CloseClient(c, "ping failed").(pump := Stopped(PingFailed)) else c
    case SeeClosed => if Selecting(c) && c.closed then c.(pump := Draining) else c
    case Cancel => if Selecting(c) then c.(pump := Stopped(Cancelled)) else c
    case DrainEnd =>
      if c.pump == Draining && c.inFlight == [] && c.queue == [] then c.(pump := Stopped(Drained)) else c
  }

  function Run(c: ClientState, steps: seq<ClientStep>): ClientState
    decreases |steps|
  {
    if steps == [] then c else Run(Apply(c, steps[0]), steps[1..])
  }

  /** The queue is bounded and nothing is reordered; the queue loses frames only once
      closed, and even then the frames accepted before the close keep their place. */
  ghost predicate Inv(c: ClientState) {
    && |c.queue| <= SEND_BUFFER
    && |c.inFlight| <= 1
    && c.delivered + c.inFlight + c.queue == c.accepted
    && (!c.closed ==> c.accepted == c.addressed)
    && (c.closed ==> c.mark <= |c.accepted| && c.mark <= |c.addressed|
                     && c.accepted[..c.mark] == c.addressed[..c.mark])
    && (c.pump == Draining ==> c.closed)
    && (c.pump.Stopped? && c.pump.how != Cancelled ==> c.closed)
    && (c.pump.Stopped? && c.inFlight != [] ==> c.pump.how == WriteFailed)
    && (c.pump == Stopped(Drained) ==> c.mark <= |c.delivered|)
  }

  lemma EnqueueKeeps(c: ClientState, f: Frame)
    requires Inv(c)
    ensures Inv(EnqueueFrame(c, f))
  {
    var d := EnqueueFrame(c, f);
    if |c.queue| < SEND_BUFFER {
      assert d.delivered + d.inFlight + d.queue == (c.delivered + c.inFlight + c.queue) + [f];
      if c.closed {
        assert d.accepted[..d.mark] == c.accepted[..c.mark];
        assert d.addressed[..d.mark] == c.addressed[..c.mark];
      }
    } else if c.closed {
      assert d.addressed[..d.mark] == c.addressed[..c.mark];
    } else {
      assert d.addressed[..d.mark] == c.addressed;
      assert d.accepted[..d.mark] == c.accepted;
    }
  }

  lemma CloseKeeps(c: ClientState, why: string)
    requires Inv(c)
    ensures Inv(CloseClient(c, why))
  {
    if !c.closed {
      assert c.accepted[..|c.accepted|] == c.accepted;
    }
  }

  lemma WriteKeeps(c: ClientState, ok: bool)
    requires Inv(c)
    ensures Inv(TakeFrame(c)) && Inv(FinishWrite(c, ok))
  {
    var d := TakeFrame(c);
    if d != c {
      assert d.delivered + d.inFlight + d.queue == c.delivered + c.inFlight + c.queue;
    }
    var e := FinishWrite(c, ok);
    if ok && e != c {
      assert e.delivered + e.inFlight + e.queue == c.delivered + c.inFlight + c.queue;
    }
    CloseKeeps(c, "write error");
  }

  lemma StepKeeps(c: ClientState, step: ClientStep)
    requires Inv(c)
    ensures Inv(Apply(c, step))
  {
    match step
    case Enqueue(f) => EnqueueKeeps(c, f);
    case Close(why) => CloseKeeps(c, why);
    case Take => WriteKeeps(c, true);
    case Written(ok) => WriteKeeps(c, ok);
    case Ping(_) => CloseKeeps(c, "ping failed");
    case SeeClosed =>
    case Cancel =>
    case DrainEnd =>
      assert c.delivered + [] + [] == c.delivered;
  }

  lemma {:induction false} RunKeeps(c: ClientState, steps: seq<ClientStep>)
    requires Inv(c)
    ensures Inv(Run(c, steps))
    decreases |steps|
  {
    if steps != [] {
      StepKeeps(c, steps[0]);
      RunKeeps(Apply(c, steps[0]), steps[1..]);
    }
  }

  /** Lossless FIFO until closed: on every run of a fresh client the queue stays within
      its 32 slots; while the client is open, what was written, is being written and is
      queued is exactly what was addressed to it, in order; and a frame that was
      addressed but not accepted means the client is closed. */
  lemma LosslessUntilClosed(user: Id, room: Id, steps: seq<ClientStep>)
    ensures var c := Run(NewClient(user, room), steps);
            && |c.queue| <= 32
            && |c.inFlight| <= 1
            && c.delivered + c.inFlight + c.queue == c.accepted
            && (!c.closed ==> c.delivered + c.inFlight + c.queue == c.addressed)
            && (c.accepted != c.addressed ==> c.closed)
            && (c.closed ==> c.mark <= |c.accepted| && c.mark <= |c.addressed|
                             && c.accepted[..c.mark] == c.addressed[..c.mark])
  {
    RunKeeps(NewClient(user, room), steps);
  }

  /** Close is one-shot and histories only grow. */
  ghost predicate Extends(c: ClientState, d: ClientState) {
    && c.accepted <= d.accepted
    && c.addressed <= d.addressed
    && c.delivered <= d.delivered
    && (c.closed ==> d.closed && d.reason == c.reason && d.mark == c.mark)
    && (c.pump.Stopped? ==> d.pump == c.pump && d.delivered == c.delivered)
    && d.user == c.user && d.room == c.room
  }

  lemma StepExtends(c: ClientState, step: ClientStep)
    ensures Extends(c, Apply(c, step))
  {
  }

  lemma {:induction false} RunExtends(c: ClientState, steps: seq<ClientStep>)
    ensures Extends(c, Run(c, steps))
    decreases |steps|
  {
    if steps != [] {
      RunExtends(Apply(c, steps[0]), steps[1..]);
    }
  }

  lemma DrainedMeansAll(c: ClientState, step: ClientStep)
    requires Inv(c) && !c.pump.Stopped? && Apply(c, step).pump == Stopped(Drained)
    ensures Apply(c, step).delivered == c.accepted
  {
    assert step == DrainEnd;
    assert c.accepted == c.delivered + [] + [] == c.delivered;
  }

  /** Whatever was accepted while the pump was still alive has been written by the time
      the drain completes, whatever else happens in between. */
  lemma {:induction false} AcceptedBeforeDrainIsDelivered(c: ClientState, steps: seq<ClientStep>)
    requires Inv(c) && !c.pump.Stopped?
    requires Run(c, steps).pump == Stopped(Drained)
    ensures c.accepted <= Run(c, steps).delivered
    decreases |steps|
  {
    assert steps != [];
    var d := Apply(c, steps[0]);
    StepKeeps(c, steps[0]);
    if d.pump.Stopped? {
      RunExtends(d, steps[1..]);
      DrainedMeansAll(c, steps[0]);
    } else {
      AcceptedBeforeDrainIsDelivered(d, steps[1..]);
      StepExtends(c, steps[0]);
    }
  }

  /** Terminal frames arrive: a `kicked` or `room_ended` frame that found room in the
      queue of a client whose pump is alive is on the wire once the drain completes,
      directly after every frame accepted before it, whatever happens between the
      enqueue, the close and the end of the drain. */
  lemma TerminalFrameArrives(c: ClientState, f: Frame, between: seq<ClientStep>, why: string, after: seq<ClientStep>)
    requires Inv(c) && !c.pump.Stopped? && |c.queue| < SEND_BUFFER
    requires Run(Apply(Run(EnqueueFrame(c, f), between), Close(why)), after).pump == Stopped(Drained)
    ensures var end := Run(Apply(Run(EnqueueFrame(c, f), between), Close(why)), after);
            && |c.accepted| < |end.delivered|
            && end.delivered[..|c.accepted| + 1] == c.accepted + [f]
  {
    var d := EnqueueFrame(c, f);
    EnqueueKeeps(c, f);
    RunAppend(d, between, [Close(why)] + after);
    var rest := [Close(why)] + after;
    assert rest[0] == Close(why) && rest[1..] == after;
    AcceptedBeforeDrainIsDelivered(d, between + rest);
  }

  lemma {:induction false} RunAppend(c: ClientState, a: seq<ClientStep>, b: seq<ClientStep>)
    ensures Run(c, a + b) == Run(Run(c, a), b)
    decreases |a|
  {
    if a == [] {
      assert a + b == b;
    } else {
      assert (a + b)[0] == a[0] && (a + b)[1..] == a[1..] + b;
      RunAppend(Apply(c, a[0]), a[1..], b);
    }
  }

  // --- when a frame is taken, and what closes a client ---------------------------------------

  /** A frame is taken while fewer than 32 are queued, and then changes nothing else; with 32
      queued it is dropped and the client closed. */
  ghost predicate Took(c: ClientState, d: ClientState, f: Frame) {
    && d.user == c.user && d.room == c.room && d.pump == c.pump
    && d.inFlight == c.inFlight && d.delivered == c.delivered && d.addressed == c.addressed + [f]
    && (|c.queue| < 32 ==>
          && d.queue == c.queue + [f] && d.accepted == c.accepted + [f]
          && d.closed == c.closed && d.reason == c.reason)
    && (|c.queue| >= 32 ==>
          && d.queue == c.queue && d.accepted == c.accepted && d.closed
          && d.reason == if c.closed then c.reason else "send buffer full")
  }

  lemma EnqueueTakes(c: ClientState, f: Frame)
    ensures Took(c, EnqueueFrame(c, f), f)
  {
  }

  function ReasonOf(step: ClientStep): string {
    match step
    case Close(why) => why
    case Enqueue(_) => "send buffer full"
    case Written(_) => "write error"
    case _ => "ping failed"
  }

  /** Exactly what closes a client, and what it gives as the reason. */
  lemma StepClosesIff(c: ClientState, step: ClientStep)
    requires Inv(c) && !c.closed
    ensures var d := Apply(c, step);
            && (d.closed <==>
                  || step.Close?
                  || (step.Enqueue? && |c.queue| == 32)
                  || (step == Written(false) && c.inFlight != [] && !c.pump.Stopped?)
                  || (step == Ping(false) && c.inFlight == [] && c.pump == Running))
            && (d.closed ==> d.reason == ReasonOf(step))
  {
  }

  /** Frames addressed to the client that are neither written nor being written. */
  function Waiting(c: ClientState): int {
    |c.addressed| - |c.delivered| - |c.inFlight|
  }

  /** At some point of the run more than 32 frames are waiting. */
  ghost predicate EverFull(c: ClientState, steps: seq<ClientStep>)
    decreases |steps|
  {
    Waiting(c) > 32 || (steps != [] && EverFull(Apply(c, steps[0]), steps[1..]))
  }

  lemma {:induction false} RunClosesIff(c: ClientState, steps: seq<ClientStep>)
    requires Inv(c)
    requires forall i :: 0 <= i < |steps| ==> !steps[i].Close? && steps[i] != Written(false) && steps[i] != Ping(false)
    ensures c.closed ==> Run(c, steps).closed
    ensures !c.closed ==> (Run(c, steps).closed <==> EverFull(c, steps))
    decreases |steps|
  {
    assert !c.closed ==> Waiting(c) == |c.queue|;
    if steps != [] {
      var d := Apply(c, steps[0]);
      StepKeeps(c, steps[0]);
      StepExtends(c, steps[0]);
      RunClosesIff(d, steps[1..]);
      if !c.closed {
        StepClosesIff(c, steps[0]);
        assert d.closed ==> Waiting(d) == 33;
        assert d.closed ==> EverFull(d, steps[1..]);
      }
    }
  }

  /** A fresh client that nobody closes and whose writes and pings succeed stays open if and
      only if it never has more than 32 frames waiting. */
  lemma OpenWhileItKeepsUp(user: Id, room: Id, steps: seq<ClientStep>)
    requires forall i :: 0 <= i < |steps| ==> !steps[i].Close? && steps[i] != Written(false) && steps[i] != Ping(false)
    ensures Run(NewClient(user, room), steps).closed <==> EverFull(NewClient(user, room), steps)
  {
    RunClosesIff(NewClient(user, room), steps);
  }

  /** No write or ping fails and the request is not cancelled. */
  predicate Healthy(step: ClientStep) {
    step != Cancel && step != Written(false) && step != Ping(false)
  }

  /** On such runs a pump that stops has drained. */
  lemma {:induction false} HealthyRunDrains(c: ClientState, steps: seq<ClientStep>)
    requires Inv(c) && (c.pump.Stopped? ==> c.pump.how == Drained)
    requires forall i :: 0 <= i < |steps| ==> Healthy(steps[i])
    ensures Run(c, steps).pump.Stopped? ==> Run(c, steps).pump == Stopped(Drained)
    decreases |steps|
  {
    if steps != [] {
      StepKeeps(c, steps[0]);
      HealthyRunDrains(Apply(c, steps[0]), steps[1..]);
    }
  }

  /** Writes that can still happen without a new enqueue. */
  function Pending(c: ClientState): nat {
    |c.inFlight| + |c.queue|
  }

  /** With no new frames a client performs at most one write for each frame it holds:
      at most 32 queued ones and the one in flight. */
  lemma {:induction false} WritesAreBounded(c: ClientState, steps: seq<ClientStep>)
    requires Inv(c)
    requires forall i :: 0 <= i < |steps| ==> !steps[i].Enqueue?
    ensures |Run(c, steps).delivered| - |c.delivered| + Pending(Run(c, steps)) <= Pending(c) <= SEND_BUFFER + 1
    decreases |steps|
  {
    if steps != [] {
      var d := Apply(c, steps[0]);
      StepKeeps(c, steps[0]);
      assert |d.delivered| - |c.delivered| + Pending(d) <= Pending(c);
      WritesAreBounded(d, steps[1..]);
    }
  }

  function DrainWork(c: ClientState): nat {
    2 * |c.queue| + |c.inFlight| + (if c.pump == Draining then 1 else 0)
  }

  /** A draining pump whose writes succeed makes progress with every event that changes
      it, so it stops after at most 2 * 32 + 2 of them, and it is never stuck. */
  lemma DrainMakesProgress(c: ClientState, step: ClientStep)
    requires Inv(c) && c.pump == Draining
    requires !step.Enqueue? && step != Written(false)
    ensures var d := Apply(c, step);
            && (d != c ==> DrainWork(d) < DrainWork(c))
            && (d.pump == Draining || (d.pump == Stopped(Drained) && d.delivered == c.accepted))
    ensures exists s: ClientStep :: s in [Take, Written(true), DrainEnd] && Apply(c, s) != c
    ensures 0 < DrainWork(c) <= 2 * SEND_BUFFER + 2
  {
    if c.inFlight != [] {
      assert Apply(c, Written(true)).inFlight == [];
      assert Written(true) in [Take, Written(true), DrainEnd];
    } else if c.queue != [] {
      assert Apply(c, Take).inFlight != [];
      assert Take in [Take, Written(true), DrainEnd];
    } else {
      assert c.accepted == c.delivered + [] + [] == c.delivered;
      assert Apply(c, DrainEnd).pump == Stopped(Drained);
      assert DrainEnd in [Take, Written(true), DrainEnd];
    }
  }
}
