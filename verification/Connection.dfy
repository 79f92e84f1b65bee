/**
 The bookkeeping a connection keeps under `opsMu` (connection.go): how many operations and handlers
 are active, whether it drains, and the channel that is closed when nothing is active.
 A channel is a generation number; `closes` counts how often each generation has been closed, so
 that replacing a channel and closing one twice (a Go panic) can both be told apart.
 */
module Operations {
  import Utf8

  type Frame = seq<Utf8.byte>

  datatype Ops = Ops(active: nat, handlers: nat, draining: bool, done: nat, closes: multiset<nat>)

  /** `newConnection`: nothing is active and the first channel is already closed. */
  const INITIAL := Ops(0, 0, false, 0, multiset{0})

  function BeginLocked(o: Ops): Ops
  {
    (if o.active == 0 then o.(done := o.done + 1) else o).(active := o.active + 1)
  }

  function EndLocked(o: Ops): Ops
  {
    if o.active == 0 then o
    else o.(active := o.active - 1, closes := if o.active == 1 then o.closes + multiset{o.done} else o.closes)
  }

  predicate HandlerAllowed(o: Ops)
  {
    !o.draining
  }

  predicate SendAllowed(o: Ops)
  {
    !(o.draining && o.handlers == 0)
  }

  function BeginHandler(o: Ops): Ops
  {
    if HandlerAllowed(o) then BeginLocked(o).(handlers := o.handlers + 1) else o
  }

  function EndHandler(o: Ops): Ops
  {
    EndLocked(if o.handlers > 0 then o.(handlers := o.handlers - 1) else o)
  }

  function BeginSend(o: Ops): Ops
  {
    if SendAllowed(o) then BeginLocked(o) else o
  }

  function BeginDrain(o: Ops): Ops
  {
    o.(draining := true)
  }

  function EndTimes(o: Ops, n: nat): Ops
  {
    if n == 0 then o else EndLocked(EndTimes(o, n - 1))
  }

  /** The current channel is closed exactly when nothing is active, and no channel was closed twice. */
  ghost predicate ChannelInv(o: Ops)
  {
    && (o.active == 0 <==> o.done in o.closes)
    && (forall g :: g in o.closes ==> o.closes[g] == 1 && g <= o.done)
  }

  ghost predicate Drained(o: Ops)
  {
    o.draining && o.done in o.closes
  }

  lemma BeginKeepsChannelInv(o: Ops)
    requires ChannelInv(o)
    ensures ChannelInv(BeginLocked(o))
    ensures o.active > 0 ==> BeginLocked(o).done == o.done
  {
  }

  lemma EndKeepsChannelInv(o: Ops)
    requires ChannelInv(o)
    ensures ChannelInv(EndLocked(o)) && EndLocked(o).done == o.done
  {
    if o.active == 1 {
      assert forall g :: g in EndLocked(o).closes ==> g == o.done || g in o.closes;
    }
  }

  /** One send that begins and then fails leaves the counts as they were, and no channel unclosed. */
  lemma BeginThenEnd(o: Ops)
    requires ChannelInv(o) && SendAllowed(o)
    ensures var p := EndLocked(BeginSend(o));
            && p.active == o.active && p.handlers == o.handlers && p.draining == o.draining
            && (p.done == o.done <==> o.active > 0)
            && ChannelInv(p)
  {
    BeginKeepsChannelInv(o);
    EndKeepsChannelInv(BeginLocked(o));
  }

  lemma {:induction false} EndTimesCounts(o: Ops, n: nat)
    requires n <= o.active
    ensures EndTimes(o, n) == o.(active := o.active - n,
                                 closes := if n > 0 && n == o.active then o.closes + multiset{o.done} else o.closes)
  {
    if n > 0 {
      EndTimesCounts(o, n - 1);
    }
  }
}

/** The connection object: the critical sections of connection.go as methods on its fields. */
module ConnectionObject {
  import opened Operations
  import P = Protocol

  /** What a sender hands over for a body: bytes, or a value that the codec cannot marshal. */
  datatype Payload = Bytes(bytes: Frame) | Unmarshallable

  datatype SendError =
    | ShuttingDown
    | CallerDone
    | Cancelled
    | QueueClosed
    | SlowConsumer
    | MarshalFailed
    | BadFrame(error: P.Error)

  datatype Outcome = Sent | Refused(error: SendError)

  datatype Framing = Whole(frame: Frame) | Broken(error: SendError)

  class Connection {
    var activeOps: nat
    var activeHandlers: nat
    var draining: bool
    var opsDone: nat
    var closes: multiset<nat>
    const capacity: nat
    var sendQueue: seq<Frame>
    var sendClosed: bool
    var cancelled: bool

    ghost function State(): Ops
      reads this
    {
      Ops(activeOps, activeHandlers, draining, opsDone, closes)
    }

    constructor (capacity: nat)
      ensures State() == INITIAL && ChannelInv(State())
      ensures this.capacity == capacity && sendQueue == [] && !sendClosed && !cancelled
    {
      this.capacity := capacity;
      activeOps, activeHandlers, draining, opsDone, closes := 0, 0, false, 0, multiset{0};
      sendQueue, sendClosed, cancelled := [], false, false;
    }

    method BeginOperationLocked()
      modifies `activeOps, `opsDone
      ensures State() == BeginLocked(old(State()))
    {
      if activeOps == 0 {
        opsDone := opsDone + 1;
      }
      activeOps := activeOps + 1;
    }

    method EndOperation()
      modifies `activeOps, `closes
      ensures State() == EndLocked(old(State()))
    {
      if activeOps == 0 {
        return;
      }
      activeOps := activeOps - 1;
      if activeOps == 0 {
        closes := closes + multiset{opsDone};
      }
    }

    method BeginHandlerOperation() returns (ok: bool)
      modifies `activeOps, `opsDone, `activeHandlers
      ensures ok == HandlerAllowed(old(State())) && State() == BeginHandler(old(State()))
    {
      if draining {
        return false;
      }
      BeginOperationLocked();
      activeHandlers := activeHandlers + 1;
      return true;
    }

    method EndHandlerOperation()
      modifies `activeOps, `closes, `activeHandlers
      ensures State() == EndHandler(old(State()))
    {
      if activeHandlers > 0 {
        activeHandlers := activeHandlers - 1;
      }
      EndOperation();
    }

    method BeginSendOperation() returns (ok: bool)
      modifies `activeOps, `opsDone
      ensures ok == SendAllowed(old(State())) && State() == BeginSend(old(State()))
    {
      if draining && activeHandlers == 0 {
        return false;
      }
      BeginOperationLocked();
      return true;
    }

    method StartDrain() returns (done: nat)
      modifies `draining
      ensures State() == BeginDrain(old(State())) && done == State().done
    {
      draining := true;
      done := opsDone;
    }

    /** Both contexts are alive, and the queue is open and has room. */
    ghost predicate Open(callerDone: bool, cancelledBefore: bool, queueBefore: seq<Frame>)
      reads this`sendClosed
    {
      !callerDone && !cancelledBefore && !sendClosed && |queueBefore| < capacity
    }

    /** Why the queue does not take a frame: the first of these reasons that applies. */
    ghost function Shut(callerDone: bool, cancelledBefore: bool): SendError
      reads this`sendClosed
    {
      if callerDone then CallerDone
      else if cancelledBefore then Cancelled
      else if sendClosed then QueueClosed
      else SlowConsumer
    }

    /** What a sender's frame comes to before it reaches the queue: the bytes the format prescribes, or an error. */
    static ghost function Framed(codec: P.Serialization, maxPayloadSize: int, kind: P.FrameKind, name: Frame, id: Frame,
                                 payload: Payload): Framing
    {
      match payload
      case Bytes(bytes) =>
        var e := P.Emit(codec, maxPayloadSize, P.Message(kind, name, id, bytes));
        if e.Ok? then Whole(e.value) else Broken(BadFrame(e.error))
      case Unmarshallable =>
        var check := P.ValidateProtocolFrame(kind, name, id);
        Broken(if check.Fail? then BadFrame(check.error) else MarshalFailed)
    }

    /** The frame is sent exactly when it is whole and the way is open; then the queue has it, and else `r` says why. */
    ghost predicate Judged(r: Outcome, framing: Framing, callerDone: bool, cancelledBefore: bool,
                           queueBefore: seq<Frame>)
      reads this`sendClosed, this`sendQueue
    {
      && (r.Sent? <==> framing.Whole? && Open(callerDone, cancelledBefore, queueBefore))
      && (r.Sent? ==> sendQueue == queueBefore + [framing.frame])
      && (r.Refused? ==> r.error == if framing.Broken? then framing.error else Shut(callerDone, cancelledBefore))
    }

    /** `enqueueFrame` without interference; a full queue disconnects the slow consumer. */
    method EnqueueFrame(callerDone: bool, frame: Frame) returns (r: Outcome)
      requires |sendQueue| <= capacity
      modifies `sendQueue, `cancelled
      ensures r.Sent? <==> !callerDone && !old(cancelled) && !sendClosed && |old(sendQueue)| < capacity
      ensures sendQueue == if r.Sent? then old(sendQueue) + [frame] else old(sendQueue)
      ensures cancelled <==> old(cancelled) || r == Refused(SlowConsumer)
      ensures r == Refused(CallerDone) <==> callerDone
      ensures r == Refused(Cancelled) <==> !callerDone && old(cancelled)
      ensures r == Refused(QueueClosed) <==> !callerDone && !old(cancelled) && sendClosed
      ensures r == Refused(SlowConsumer) <==>
                !callerDone && !old(cancelled) && !sendClosed && |old(sendQueue)| == capacity
      ensures |sendQueue| <= capacity
    {
      if callerDone {
        return Refused(CallerDone);
      }
      if cancelled {
        return Refused(Cancelled);
      }
      if sendClosed {
        return Refused(QueueClosed);
      }
      if |sendQueue| < capacity {
        sendQueue := sendQueue + [frame];
        return Sent;
      }
      cancelled := true;
      return Refused(SlowConsumer);
    }

    /** `writeEncodedProtocolFrame` and `writeRawProtocolFrame`: check and build the frame, then queue it. */
    method WriteProtocolFrame(callerDone: bool, codec: P.Serialization, maxPayloadSize: int, kind: P.FrameKind,
                              name: Frame, id: Frame, payload: Payload)
      returns (r: Outcome)
      requires |sendQueue| <= capacity
      modifies `sendQueue, `cancelled
      ensures |sendQueue| <= capacity
      ensures cancelled <==> old(cancelled) || r == Refused(SlowConsumer)
      ensures r.Refused? ==> sendQueue == old(sendQueue)
      ensures Judged(r, Framed(codec, maxPayloadSize, kind, name, id, payload), callerDone, old(cancelled),
                     old(sendQueue))
    {
      if payload.Unmarshallable? {
        var check := P.ValidateProtocolFrame(kind, name, id);
        return Refused(if check.Fail? then BadFrame(check.error) else MarshalFailed);
      }
      var check, frame := P.BuildRawFrame(codec, maxPayloadSize, P.Message(kind, name, id, payload.bytes));
      if check.Fail? {
        return Refused(BadFrame(check.error));
      }
      r := EnqueueFrame(callerDone, frame[..]);
    }

    /**
     `SendRaw` and its siblings: the frame is sent exactly when the operation may begin, the frame can be built, both
     contexts are alive and the queue is open and has room. The operation stays active exactly for a frame that went
     into the queue, and every refusal names its reason.
     */
    method SendFrame(callerDone: bool, codec: P.Codec, maxPayloadSize: int, kind: P.FrameKind, name: Frame, id: Frame,
                     payload: Payload)
      returns (r: Outcome)
      requires |sendQueue| <= capacity && ChannelInv(State())
      modifies `activeOps, `opsDone, `closes, `sendQueue, `cancelled
      ensures |sendQueue| <= capacity && ChannelInv(State())
      ensures activeOps - |sendQueue| == old(activeOps) - |old(sendQueue)|
      ensures activeHandlers == old(activeHandlers) && draining == old(draining)
      ensures cancelled <==> old(cancelled) || r == Refused(SlowConsumer)
      ensures r.Refused? ==> sendQueue == old(sendQueue)
      ensures codec.NoCodec? ==> r == Refused(BadFrame(P.UnsupportedCodec)) && State() == old(State())
      ensures r == Refused(ShuttingDown) <==> codec.Body? && !SendAllowed(old(State()))
      ensures r == Refused(ShuttingDown) ==> State() == old(State())
      ensures codec.Body? && SendAllowed(old(State())) ==>
                State() == if r.Sent? then BeginSend(old(State())) else EndLocked(BeginSend(old(State())))
      ensures codec.Body? && SendAllowed(old(State())) ==>
                Judged(r, Framed(codec.serialization, maxPayloadSize, kind, name, id, payload), callerDone,
                       old(cancelled), old(sendQueue))
    {
      if codec.NoCodec? {
        return Refused(BadFrame(P.UnsupportedCodec));
      }
      BeginKeepsChannelInv(State());
      var ok := BeginSendOperation();
      if !ok {
        return Refused(ShuttingDown);
      }
      r := WriteProtocolFrame(callerDone, codec.serialization, maxPayloadSize, kind, name, id, payload);
      assert State() == BeginLocked(old(State())) && activeOps == old(activeOps) + 1;
      if r.Refused? {
        EndKeepsChannelInv(State());
        EndOperation();
      }
    }

    /** `discardQueuedFrames`: closes the queue once and ends the operation of every frame left in it, oldest first. */
    method DiscardQueuedFrames() returns (discarded: seq<Frame>)
      modifies `activeOps, `closes, `sendQueue, `sendClosed
      ensures sendClosed
      ensures discarded == if old(sendClosed) then [] else old(sendQueue)
      ensures sendQueue == if old(sendClosed) then old(sendQueue) else []
      ensures State() == EndTimes(old(State()), |discarded|)
      ensures |discarded| <= old(activeOps) ==>
                && activeOps == old(activeOps) - |discarded|
                && closes == old(closes) + if |discarded| == old(activeOps) > 0 then multiset{opsDone} else multiset{}
    {
      discarded := [];
      if sendClosed {
        return;
      }
      sendClosed := true;
      while sendQueue != []
        invariant sendClosed && discarded + sendQueue == old(sendQueue)
        invariant State() == EndTimes(old(State()), |discarded|)
        decreases |sendQueue|
      {
        discarded := discarded + [sendQueue[0]];
        sendQueue := sendQueue[1..];
        EndOperation();
      }
      if |discarded| <= old(activeOps) {
        EndTimesCounts(old(State()), |discarded|);
      }
    }
  }
}
