/**
 The read loop as one goroutine among all those of its connection: it runs hub methods in handler operations and sends
 its replies like any other sender, while other senders, handlers, the writer, drainers and closers interleave freely.
 */
module ReadLoopRuns {
  import opened Operations
  import opened Protocol
  import opened ReadLoop
  import C = ConnectionRuns

  datatype Fault =
    | Unreadable        // nothing readable came, or no valid frame
    | HandlerRefused    // the connection drains, so no handler operation begins
    | HandlerFailed     // hub error on a Message, or a frame kind the dispatcher does not know
    | ReplyRefused      // the connection drains and no handler runs
    | ReplyUnframed     // the reply is too long, or the codec refuses it
    | ReplyNotQueued

  datatype Phase =
    | Reading
    | Admitting(input: Inbound)
    | Dispatching(input: Inbound)
    | Answering(input: Inbound, outcome: Dispatched)  // beginSendOperation comes next
    | Sending(input: Inbound, outcome: Dispatched)
    | Leaving                                         // endHandlerOperation comes next
    | LeavingWith(fault: Fault)
    | Ended(fault: Fault)

  /** `slot` and `handler` are the loop's own; the last three fields record its history. */
  datatype State = State(
    conn: C.Conn,
    slot: nat,
    handler: nat,
    phase: Phase,
    received: seq<Inbound>,
    turns: seq<(Inbound, World)>,  // what was served, with what became of it
    replies: seq<Frame>)           // what the queue took from the loop

  datatype Step =
    | Other(st: C.Step)
    | Receive(input: Inbound)
    | Admit
    | Dispatch(outcome: Dispatched)
    | BeginReply
    | SendOn(st: C.Step)
    | Leave

  datatype Config = Config(codec: Serialization, maxPayload: int)

  function New(capacity: nat, handler: nat): State
  {
    State(C.Apply(C.New(capacity), C.Spawn), 0, handler, Reading, [], [], [])
  }

  /** The loop's own steps as a sender. */
  predicate OfSlot(st: C.Step, slot: nat)
  {
    match st
    case StartSend(i, _) => i == slot
    case PrepareFails(i) => i == slot
    case LookAtContexts(i, _) => i == slot
    case Enqueue(i, _) => i == slot
    case Disconnect(i) => i == slot
    case EndFailed(i) => i == slot
    case _ => false
  }

  predicate OfHandler(st: C.Step, handler: nat)
  {
    (st.StartHandler? || st.StopHandler?) && st.t == handler
  }

  predicate IsInvoke(input: Inbound, cfg: Config)
  {
    && input.Binary?
    && Decode(input.frame, Body(cfg.codec), cfg.maxPayload).Ok?
    && Decode(input.frame, Body(cfg.codec), cfg.maxPayload).value.kind == KIND_INVOKE
  }

  /** What the loop tries to put on the queue, if it can be framed at all. */
  function Wanted(input: Inbound, outcome: Dispatched, cfg: Config): Attempt
  {
    Turn(input, World(true, outcome, true), cfg.codec, cfg.maxPayload)
  }

  predicate Enabled(s: State, step: Step, cfg: Config)
  {
    match step
    case Other(st) => C.Enabled(s.conn, st) && !OfSlot(st, s.slot) && !OfHandler(st, s.handler)
    case Receive(_) => s.phase.Reading?
    case Admit => s.phase.Admitting? && s.handler !in s.conn.running
    case Dispatch(_) => s.phase.Dispatching?
    case BeginReply => s.phase.Answering? && s.slot < |s.conn.senders| && s.conn.senders[s.slot].Idle?
    case SendOn(st) =>
      && s.phase.Sending? && C.Enabled(s.conn, st) && OfSlot(st, s.slot) && !st.StartSend?
      && (st.PrepareFails? <==> Wanted(s.phase.input, s.phase.outcome, cfg).Fails? && s.conn.senders[s.slot].Preparing?)
      && (st.LookAtContexts? ==> !st.callerDone)  // its caller's context is the connection's own
    case Leave => (s.phase.Leaving? || s.phase.LeavingWith?) && s.handler in s.conn.running
  }

  function AfterReceive(s: State, input: Inbound, cfg: Config): State
  {
    var t := s.(received := s.received + [input]);
    if !input.Binary? then t.(phase := Ended(Unreadable))
    else
      var r := Decode(input.frame, Body(cfg.codec), cfg.maxPayload);
      if r.Err? then t.(phase := Ended(Unreadable))
      else if r.value.kind == KIND_PING then t.(phase := Answering(input, Value([])))
      else if r.value.kind == KIND_PONG then t.(turns := s.turns + [(input, World(true, Value([]), true))])
      else t.(phase := Admitting(input))
  }

  function AfterDispatch(s: State, outcome: Dispatched, cfg: Config): State
    requires s.phase.Dispatching?
  {
    var input := s.phase.input;
    if IsInvoke(input, cfg) then s.(phase := Answering(input, outcome))
    else if Wanted(input, outcome, cfg).Fails? then s.(phase := LeavingWith(HandlerFailed))
    else s.(phase := Leaving, turns := s.turns + [(input, World(true, outcome, true))])
  }

  /** Where a failed reply leads: out of the handler operation first, if there is one. */
  function Failed(input: Inbound, cfg: Config, fault: Fault): Phase
  {
    if IsInvoke(input, cfg) then LeavingWith(fault) else Ended(fault)
  }

  function AfterSend(s: State, st: C.Step, cfg: Config): State
    requires Enabled(s, SendOn(st), cfg)
  {
    var input, wanted := s.phase.input, Wanted(s.phase.input, s.phase.outcome, cfg);
    var t := s.(conn := C.Apply(s.conn, st));
    if st.Enqueue? && t.conn.senders[s.slot].Idle? then
      t.(phase := if IsInvoke(input, cfg) then Leaving else Reading,
         turns := s.turns + [(input, World(true, s.phase.outcome, true))],
         replies := s.replies + [s.conn.senders[s.slot].frame])
    else if st.EndFailed? then
      t.(phase := Failed(input, cfg, if wanted.Fails? then ReplyUnframed else ReplyNotQueued))
    else t
  }

  function Apply(s: State, step: Step, cfg: Config): State
    requires Enabled(s, step, cfg)
  {
    match step
    case Other(st) => s.(conn := C.Apply(s.conn, st))
    case Receive(input) => AfterReceive(s, input, cfg)
    case Admit =>
      if HandlerAllowed(s.conn.ops) then
        s.(conn := C.Apply(s.conn, C.StartHandler(s.handler)), phase := Dispatching(s.phase.input))
      else s.(phase := Ended(HandlerRefused))
    case Dispatch(outcome) => AfterDispatch(s, outcome, cfg)
    case BeginReply =>
      var wanted := Wanted(s.phase.input, s.phase.outcome, cfg);
      var frame := if wanted.Reply? then wanted.frame else [];
      if SendAllowed(s.conn.ops) then
        s.(conn := C.Apply(s.conn, C.StartSend(s.slot, frame)), phase := Sending(s.phase.input, s.phase.outcome))
      else s.(phase := Failed(s.phase.input, cfg, ReplyRefused))
    case SendOn(st) => AfterSend(s, st, cfg)
    case Leave =>
      s.(conn := C.Apply(s.conn, C.StopHandler(s.handler)),
         phase := if s.phase.LeavingWith? then Ended(s.phase.fault) else Reading)
  }

  ghost predicate IsRun(states: seq<State>, steps: seq<Step>, cfg: Config)
  {
    && |states| == |steps| + 1
    && states[0] == New(states[0].conn.capacity, states[0].handler)
    && forall k {:trigger steps[k]} :: 0 <= k < |steps| ==>
         Enabled(states[k], steps[k], cfg) && states[k + 1] == Apply(states[k], steps[k], cfg)
  }

  // ---- the invariant ------------------------------------------------------------------

  /** `a` is what remains of `b` when some of its elements are left out. */
  predicate Subsequence<T(==)>(a: seq<T>, b: seq<T>)
  {
    if a == [] then true
    else if b == [] then false
    else
      var m, n := |a| - 1, |b| - 1;
      (a[m] == b[n] && Subsequence(a[..m], b[..n])) || Subsequence(a, b[..n])
  }

  lemma SubsequenceAppend<T>(a: seq<T>, b: seq<T>, x: T)
    requires Subsequence(a, b)
    ensures Subsequence(a, b + [x]) && Subsequence(a + [x], b + [x])
  {
    assert (a + [x])[..|a|] == a && (b + [x])[..|b|] == b;
  }

  predicate InOperation(phase: Phase, cfg: Config)
  {
    match phase
    case Dispatching(_) => true
    case Answering(input, _) => IsInvoke(input, cfg)
    case Sending(input, _) => IsInvoke(input, cfg)
    case Leaving => true
    case LeavingWith(_) => true
    case _ => false
  }

  /** The loop and its connection agree on what the loop is doing. */
  ghost predicate OwnInv(s: State, cfg: Config)
  {
    && s.slot < |s.conn.senders|
    && (s.phase.Sending? <==> !s.conn.senders[s.slot].Idle?)
    && (InOperation(s.phase, cfg) <==> s.handler in s.conn.running)
  }

  /** The frame in the loop's hands is the reply it wants to send, and gives up on it only for a reason. */
  ghost predicate SendInv(conn: C.Conn, slot: nat, phase: Phase, cfg: Config)
    requires slot < |conn.senders|
  {
    phase.Sending? ==>
      var wanted := Wanted(phase.input, phase.outcome, cfg);
      match conn.senders[slot]
      case Preparing(frame) => wanted.Reply? ==> frame == wanted.frame
      case Checked(frame) => wanted.Reply? && frame == wanted.frame
      case FoundFull => wanted.Reply?
      case Failing => wanted.Fails? || conn.cancelled
      case Idle => true
  }

  ghost predicate PhaseInv(phase: Phase, cfg: Config)
  {
    && (phase.Admitting? || phase.Dispatching? ==>
          && phase.input.Binary? && Decode(phase.input.frame, Body(cfg.codec), cfg.maxPayload).Ok?
          && var kind := Decode(phase.input.frame, Body(cfg.codec), cfg.maxPayload).value.kind;
             kind != KIND_PING && kind != KIND_PONG)
    && (phase.Answering? || phase.Sending? ==> Asks(phase.input, cfg.codec, cfg.maxPayload))
  }

  /** Why the loop gave up on a reply. */
  ghost predicate FaultInv(conn: C.Conn, phase: Phase)
  {
    phase.LeavingWith? || phase.Ended? ==>
      && (phase.fault.ReplyNotQueued? ==> conn.cancelled)
      && (phase.fault.ReplyRefused? ==> conn.ops.draining && phase.Ended?)
      && (phase.fault.HandlerRefused? ==> conn.ops.draining)
  }

  function Unserved(phase: Phase): seq<Inbound>
  {
    match phase
    case Admitting(input) => [input]
    case Dispatching(input) => [input]
    case Answering(input, _) => [input]
    case Sending(input, _) => [input]
    case _ => []
  }

  /** What was received is what was served, and at most one frame more. */
  ghost predicate Served(received: seq<Inbound>, turns: seq<(Inbound, World)>, phase: Phase)
  {
    && |turns| + |Unserved(phase)| <= |received| <= |turns| + 1
    && (phase.Reading? || phase.Leaving? ==> |received| == |turns|)
    && (phase.LeavingWith? || phase.Ended? ==> |received| == |turns| + 1)
    && (Unserved(phase) != [] ==> received[|turns|] == Unserved(phase)[0])
    && forall i :: 0 <= i < |turns| ==> turns[i].0 == received[i]
  }

  ghost predicate LocalInv(s: State, cfg: Config)
  {
    && OwnInv(s, cfg)
    && SendInv(s.conn, s.slot, s.phase, cfg)
    && PhaseInv(s.phase, cfg)
    && FaultInv(s.conn, s.phase)
  }

  ghost predicate LogInv(s: State, cfg: Config)
  {
    Answered(s.turns, s.replies, cfg.codec, cfg.maxPayload) && Subsequence(s.replies, s.conn.accepted)
  }

  /** Seen from the connection, a step of the loop is nothing or one step of the connection. */
  lemma KeepsConn(s: State, step: Step, cfg: Config)
    requires C.Inv(s.conn) && Enabled(s, step, cfg)
    ensures C.Inv(Apply(s, step, cfg).conn)
  {
    match step
    case Other(st) => C.KeepsInv(s.conn, st);
    case Admit =>
      if HandlerAllowed(s.conn.ops) {
        C.KeepsInv(s.conn, C.StartHandler(s.handler));
      }
    case BeginReply =>
      if SendAllowed(s.conn.ops) {
        var wanted := Wanted(s.phase.input, s.phase.outcome, cfg);
        C.KeepsInv(s.conn, C.StartSend(s.slot, if wanted.Reply? then wanted.frame else []));
      }
    case SendOn(st) => C.KeepsInv(s.conn, st);
    case Leave => C.KeepsInv(s.conn, C.StopHandler(s.handler));
    case _ =>
  }

  /** What anybody else's step leaves of the loop's affairs. */
  lemma OthersKeepAway(conn: C.Conn, st: C.Step, slot: nat, handler: nat)
    requires C.Enabled(conn, st) && !OfSlot(st, slot) && !OfHandler(st, handler) && slot < |conn.senders|
    ensures var t := C.Apply(conn, st);
            && slot < |t.senders| && t.senders[slot] == conn.senders[slot]
            && (handler in t.running <==> handler in conn.running)
            && (conn.cancelled ==> t.cancelled) && (conn.ops.draining ==> t.ops.draining)
  {
  }

  lemma OtherKeepsLocal(s: State, st: C.Step, cfg: Config)
    requires LocalInv(s, cfg) && Enabled(s, Other(st), cfg)
    ensures LocalInv(Apply(s, Other(st), cfg), cfg)
  {
    OthersKeepAway(s.conn, st, s.slot, s.handler);
  }

  lemma ReceiveKeepsLocal(s: State, input: Inbound, cfg: Config)
    requires LocalInv(s, cfg) && s.phase.Reading?
    ensures LocalInv(AfterReceive(s, input, cfg), cfg)
  {
  }

  lemma AdmitKeepsLocal(s: State, cfg: Config)
    requires LocalInv(s, cfg) && Enabled(s, Admit, cfg)
    ensures LocalInv(Apply(s, Admit, cfg), cfg)
  {
  }

  lemma DispatchKeepsLocal(s: State, outcome: Dispatched, cfg: Config)
    requires LocalInv(s, cfg) && s.phase.Dispatching?
    ensures LocalInv(AfterDispatch(s, outcome, cfg), cfg)
  {
  }

  lemma LeaveKeepsLocal(s: State, cfg: Config)
    requires LocalInv(s, cfg) && Enabled(s, Leave, cfg)
    ensures LocalInv(Apply(s, Leave, cfg), cfg)
  {
  }

  /** Inside a handler operation a send is never refused. */
  lemma SendAllowedInside(s: State, cfg: Config)
    requires C.Inv(s.conn) && OwnInv(s, cfg) && InOperation(s.phase, cfg)
    ensures SendAllowed(s.conn.ops)
  {
    assert |s.conn.running| > 0 by { assert s.handler in s.conn.running; }
  }

  lemma BeginReplyKeepsLocal(s: State, cfg: Config)
    requires C.Inv(s.conn) && LocalInv(s, cfg) && Enabled(s, BeginReply, cfg)
    ensures LocalInv(Apply(s, BeginReply, cfg), cfg)
  {
    if IsInvoke(s.phase.input, cfg) {
      SendAllowedInside(s, cfg);
    }
  }

  /** A frame that asks is never passed over in silence. */
  lemma AskedIsWanted(input: Inbound, outcome: Dispatched, cfg: Config)
    requires Asks(input, cfg.codec, cfg.maxPayload)
    ensures !Wanted(input, outcome, cfg).Silent?
  {
    TurnAnswers(input, World(true, outcome, true), cfg.codec, cfg.maxPayload);
  }

  lemma SendKeepsOwn(s: State, st: C.Step, cfg: Config)
    requires OwnInv(s, cfg) && Enabled(s, SendOn(st), cfg)
    ensures OwnInv(AfterSend(s, st, cfg), cfg)
  {
  }

  lemma SendKeepsFrame(s: State, st: C.Step, cfg: Config)
    requires C.PhaseInv(s.conn) && LocalInv(s, cfg) && Enabled(s, SendOn(st), cfg)
    ensures var t := AfterSend(s, st, cfg);
            && t.slot < |t.conn.senders|
            && SendInv(t.conn, t.slot, t.phase, cfg) && PhaseInv(t.phase, cfg) && FaultInv(t.conn, t.phase)
  {
    AskedIsWanted(s.phase.input, s.phase.outcome, cfg);
  }

  lemma SendKeepsLocal(s: State, st: C.Step, cfg: Config)
    requires C.PhaseInv(s.conn) && LocalInv(s, cfg) && Enabled(s, SendOn(st), cfg)
    ensures LocalInv(Apply(s, SendOn(st), cfg), cfg)
  {
    SendKeepsOwn(s, st, cfg);
    SendKeepsFrame(s, st, cfg);
  }

  lemma KeepsLocal(s: State, step: Step, cfg: Config)
    requires C.Inv(s.conn) && LocalInv(s, cfg) && Enabled(s, step, cfg)
    ensures LocalInv(Apply(s, step, cfg), cfg)
  {
    match step
    case Other(st) => OtherKeepsLocal(s, st, cfg);
    case Receive(input) => ReceiveKeepsLocal(s, input, cfg);
    case Admit => AdmitKeepsLocal(s, cfg);
    case Dispatch(outcome) => DispatchKeepsLocal(s, outcome, cfg);
    case BeginReply => BeginReplyKeepsLocal(s, cfg);
    case SendOn(st) => SendKeepsLocal(s, st, cfg);
    case Leave => LeaveKeepsLocal(s, cfg);
  }

  lemma ServedMore(received: seq<Inbound>, turns: seq<(Inbound, World)>, phase: Phase, world: World, next: Phase)
    requires Served(received, turns, phase) && Unserved(phase) != [] && (next.Reading? || next.Leaving?)
    ensures Served(received, turns + [(Unserved(phase)[0], world)], next)
  {
  }

  lemma ReceiveKeepsTurns(s: State, input: Inbound, cfg: Config)
    requires Served(s.received, s.turns, s.phase) && s.phase.Reading?
    ensures var t := AfterReceive(s, input, cfg); Served(t.received, t.turns, t.phase)
  {
    ServedMore(s.received + [input], s.turns, Admitting(input), World(true, Value([]), true), Reading);
  }

  lemma SendKeepsTurns(s: State, st: C.Step, cfg: Config)
    requires Served(s.received, s.turns, s.phase) && Enabled(s, SendOn(st), cfg)
    ensures var t := AfterSend(s, st, cfg); Served(t.received, t.turns, t.phase)
  {
    var t := AfterSend(s, st, cfg);
    if t.turns != s.turns {
      ServedMore(s.received, s.turns, s.phase, World(true, s.phase.outcome, true), t.phase);
    }
  }

  lemma KeepsTurns(s: State, step: Step, cfg: Config)
    requires Served(s.received, s.turns, s.phase) && Enabled(s, step, cfg)
    ensures var t := Apply(s, step, cfg); Served(t.received, t.turns, t.phase)
  {
    match step
    case Receive(input) => ReceiveKeepsTurns(s, input, cfg);
    case Dispatch(outcome) => ServedMore(s.received, s.turns, s.phase, World(true, outcome, true), Leaving);
    case SendOn(st) => SendKeepsTurns(s, st, cfg);
    case _ =>
  }

  /** A step puts at most one frame on the queue, and nothing is ever taken back. */
  lemma AcceptedGrows(conn: C.Conn, st: C.Step)
    requires C.Enabled(conn, st)
    ensures var t := C.Apply(conn, st);
            t.accepted == conn.accepted || exists x :: t.accepted == conn.accepted + [x]
  {
    if st.Enqueue? && C.Apply(conn, st).accepted != conn.accepted {
      assert C.Apply(conn, st).accepted == conn.accepted + [conn.senders[st.i].frame];
    }
  }

  lemma StillSubsequence(replies: seq<Frame>, conn: C.Conn, st: C.Step)
    requires Subsequence(replies, conn.accepted) && C.Enabled(conn, st)
    ensures Subsequence(replies, C.Apply(conn, st).accepted)
  {
    AcceptedGrows(conn, st);
    if C.Apply(conn, st).accepted != conn.accepted {
      var x :| C.Apply(conn, st).accepted == conn.accepted + [x];
      SubsequenceAppend(replies, conn.accepted, x);
    }
  }

  /** A turn served in silence. */
  lemma SilentKeepsLog(s: State, t: State, input: Inbound, outcome: Dispatched, cfg: Config)
    requires LogInv(s, cfg) && Wanted(input, outcome, cfg).Silent?
    requires t.turns == s.turns + [(input, World(true, outcome, true))]
    requires t.replies == s.replies && t.conn == s.conn
    ensures LogInv(t, cfg)
  {
    AnsweredExtends(s.turns, (input, World(true, outcome, true)), s.replies, cfg.codec, cfg.maxPayload);
  }

  lemma QueuedKeepsLog(s: State, st: C.Step, cfg: Config)
    requires LocalInv(s, cfg) && LogInv(s, cfg) && Enabled(s, SendOn(st), cfg) && st.Enqueue?
    requires C.Apply(s.conn, st).senders[s.slot].Idle?
    ensures LogInv(Apply(s, SendOn(st), cfg), cfg)
  {
    var frame := s.conn.senders[s.slot].frame;
    assert C.Apply(s.conn, st).accepted == s.conn.accepted + [frame];
    SubsequenceAppend(s.replies, s.conn.accepted, frame);
    AnsweredExtends(s.turns, (s.phase.input, World(true, s.phase.outcome, true)), s.replies, cfg.codec, cfg.maxPayload);
  }

  lemma SendKeepsLog(s: State, st: C.Step, cfg: Config)
    requires LocalInv(s, cfg) && LogInv(s, cfg) && Enabled(s, SendOn(st), cfg)
    ensures LogInv(Apply(s, SendOn(st), cfg), cfg)
  {
    if st.Enqueue? && C.Apply(s.conn, st).senders[s.slot].Idle? {
      QueuedKeepsLog(s, st, cfg);
    } else {
      StillSubsequence(s.replies, s.conn, st);
    }
  }

  lemma ReceiveKeepsLog(s: State, input: Inbound, cfg: Config)
    requires LogInv(s, cfg) && s.phase.Reading?
    ensures LogInv(AfterReceive(s, input, cfg), cfg)
  {
    var t := AfterReceive(s, input, cfg);
    if t.turns != s.turns {
      SilentKeepsLog(s, t, input, Value([]), cfg);
    }
  }

  lemma DispatchKeepsLog(s: State, outcome: Dispatched, cfg: Config)
    requires PhaseInv(s.phase, cfg) && LogInv(s, cfg) && s.phase.Dispatching?
    ensures LogInv(AfterDispatch(s, outcome, cfg), cfg)
  {
    var t := AfterDispatch(s, outcome, cfg);
    if t.turns != s.turns {
      SilentKeepsLog(s, t, s.phase.input, outcome, cfg);
    }
  }

  /** These steps serve nothing and queue nothing. */
  lemma QuietStep(s: State, step: Step, cfg: Config)
    requires Enabled(s, step, cfg) && (step.Admit? || step.BeginReply? || step.Leave?)
    ensures var t := Apply(s, step, cfg);
            t.turns == s.turns && t.replies == s.replies && t.conn.accepted == s.conn.accepted
  {
  }

  lemma KeepsLog(s: State, step: Step, cfg: Config)
    requires LocalInv(s, cfg) && LogInv(s, cfg) && Enabled(s, step, cfg)
    ensures LogInv(Apply(s, step, cfg), cfg)
  {
    match step
    case Other(st) => StillSubsequence(s.replies, s.conn, st);
    case Receive(input) => ReceiveKeepsLog(s, input, cfg);
    case Dispatch(outcome) => DispatchKeepsLog(s, outcome, cfg);
    case SendOn(st) => SendKeepsLog(s, st, cfg);
    case _ => QuietStep(s, step, cfg);
  }

  lemma NewInv(capacity: nat, handler: nat, cfg: Config)
    ensures var s := New(capacity, handler);
            C.Inv(s.conn) && LocalInv(s, cfg) && Served(s.received, s.turns, s.phase) && LogInv(s, cfg)
  {
    C.NewInv(capacity);
    C.KeepsInv(C.New(capacity), C.Spawn);
  }

  lemma {:induction false} RunConn(states: seq<State>, steps: seq<Step>, cfg: Config, k: nat)
    requires IsRun(states, steps, cfg) && k < |states|
    ensures C.Inv(states[k].conn)
  {
    if k == 0 {
      NewInv(states[0].conn.capacity, states[0].handler, cfg);
    } else {
      RunConn(states, steps, cfg, k - 1);
      KeepsConn(states[k - 1], steps[k - 1], cfg);
    }
  }

  lemma {:induction false} RunLocal(states: seq<State>, steps: seq<Step>, cfg: Config, k: nat)
    requires IsRun(states, steps, cfg) && k < |states|
    ensures LocalInv(states[k], cfg)
  {
    if k == 0 {
      NewInv(states[0].conn.capacity, states[0].handler, cfg);
    } else {
      RunLocal(states, steps, cfg, k - 1);
      RunConn(states, steps, cfg, k - 1);
      KeepsLocal(states[k - 1], steps[k - 1], cfg);
    }
  }

  lemma {:induction false} RunTurns(states: seq<State>, steps: seq<Step>, cfg: Config, k: nat)
    requires IsRun(states, steps, cfg) && k < |states|
    ensures Served(states[k].received, states[k].turns, states[k].phase)
  {
    if k > 0 {
      RunTurns(states, steps, cfg, k - 1);
      KeepsTurns(states[k - 1], steps[k - 1], cfg);
    }
  }

  lemma {:induction false} RunLog(states: seq<State>, steps: seq<Step>, cfg: Config, k: nat)
    requires IsRun(states, steps, cfg) && k < |states|
    ensures LogInv(states[k], cfg)
  {
    if k > 0 {
      RunLog(states, steps, cfg, k - 1);
      RunLocal(states, steps, cfg, k - 1);
      KeepsLog(states[k - 1], steps[k - 1], cfg);
    }
  }

  // ---- what was served, and why the loop ended ----------------------------------------

  lemma StepAt(states: seq<State>, steps: seq<Step>, cfg: Config, k: nat)
    requires IsRun(states, steps, cfg) && k < |steps|
    ensures Enabled(states[k], steps[k], cfg) && states[k + 1] == Apply(states[k], steps[k], cfg)
  {
  }

  /** A turn that was served and recorded is one that does not end the loop. */
  ghost predicate Sound(turns: seq<(Inbound, World)>, cfg: Config)
  {
    forall i :: 0 <= i < |turns| ==> !Turn(turns[i].0, turns[i].1, cfg.codec, cfg.maxPayload).Fails?
  }

  lemma KeepsSound(s: State, step: Step, cfg: Config)
    requires Sound(s.turns, cfg) && LocalInv(s, cfg) && Enabled(s, step, cfg)
    ensures Sound(Apply(s, step, cfg).turns, cfg)
  {
  }

  lemma {:induction false} RunSound(states: seq<State>, steps: seq<Step>, cfg: Config, k: nat)
    requires IsRun(states, steps, cfg) && k < |states|
    ensures Sound(states[k].turns, cfg)
  {
    if k > 0 {
      RunSound(states, steps, cfg, k - 1);
      RunLocal(states, steps, cfg, k - 1);
      StepAt(states, steps, cfg, k - 1);
      KeepsSound(states[k - 1], steps[k - 1], cfg);
    }
  }

  predicate Readable(input: Inbound, cfg: Config)
  {
    input.Binary? && Decode(input.frame, Body(cfg.codec), cfg.maxPayload).Ok?
  }

  function KindOf(input: Inbound, cfg: Config): FrameKind
    requires Readable(input, cfg)
  {
    Decode(input.frame, Body(cfg.codec), cfg.maxPayload).value.kind
  }

  predicate InPhase(phase: Phase, input: Inbound)
  {
    Unserved(phase) == [input]
  }

  /** The step `step` in state `s` is a reason to end the loop with `fault` over the frame `input`. */
  ghost predicate Justifies(s: State, step: Step, fault: Fault, input: Inbound, cfg: Config)
  {
    match fault
    case Unreadable => s.phase.Reading? && step == Receive(input) && !Readable(input, cfg)
    case HandlerRefused => s.phase == Admitting(input) && step.Admit? && s.conn.handedOut != {}
    case HandlerFailed =>
      && s.phase == Dispatching(input) && step.Dispatch? && Readable(input, cfg)
      && (KindOf(input, cfg) == 2 || KindOf(input, cfg) == 3 || (KindOf(input, cfg) == 0 && step.outcome.Error?))
    case ReplyRefused =>
      && s.phase.Answering? && s.phase.input == input && step.BeginReply? && Readable(input, cfg)
      && KindOf(input, cfg) == 4 && s.conn.handedOut != {} && s.conn.running == {}
    case ReplyUnframed =>
      && s.phase.Sending? && s.phase.input == input && Readable(input, cfg) && KindOf(input, cfg) == 1
      && (s.phase.outcome.Unencodable? || TooLong(s.phase.outcome, cfg.maxPayload))
    case ReplyNotQueued => s.phase.Sending? && s.phase.input == input && s.conn.cancelled
  }

  function FaultOf(phase: Phase): Fault
    requires phase.LeavingWith? || phase.Ended?
  {
    phase.fault
  }

  lemma FaultJustified(s: State, step: Step, cfg: Config)
    requires C.Inv(s.conn) && LocalInv(s, cfg) && Enabled(s, step, cfg)
    requires !s.phase.LeavingWith? && !s.phase.Ended?
    requires Apply(s, step, cfg).phase.LeavingWith? || Apply(s, step, cfg).phase.Ended?
    ensures var input := if step.Receive? then [step.input] else Unserved(s.phase);
            |input| == 1 && Justifies(s, step, FaultOf(Apply(s, step, cfg).phase), input[0], cfg)
  {
    if s.phase.Sending? {
      FailsExactly(s.phase.input, World(true, s.phase.outcome, true), cfg.codec, cfg.maxPayload);
    }
    assert s.conn.running == {} <==> |s.conn.running| == 0;
    if step.Dispatch? {
      FailsExactly(s.phase.input, World(true, step.outcome, true), cfg.codec, cfg.maxPayload);
    }
  }

  /** Once there is a fault, nothing more is received or served. */
  lemma FaultStays(s: State, step: Step, cfg: Config)
    requires (s.phase.LeavingWith? || s.phase.Ended?) && Enabled(s, step, cfg)
    ensures var t := Apply(s, step, cfg);
            && (t.phase.LeavingWith? || t.phase.Ended?) && FaultOf(t.phase) == FaultOf(s.phase)
            && t.turns == s.turns && t.received == s.received
  {
  }

  lemma FaultBegins(s: State, step: Step, cfg: Config)
    requires C.Inv(s.conn) && LocalInv(s, cfg) && Served(s.received, s.turns, s.phase) && Enabled(s, step, cfg)
    requires !s.phase.LeavingWith? && !s.phase.Ended?
    requires Apply(s, step, cfg).phase.LeavingWith? || Apply(s, step, cfg).phase.Ended?
    ensures var t := Apply(s, step, cfg);
            && t.turns == s.turns && |t.received| == |t.turns| + 1
            && Justifies(s, step, FaultOf(t.phase), t.received[|t.turns|], cfg)
  {
    FaultJustified(s, step, cfg);
  }

  predicate HasFault(phase: Phase)
  {
    phase.LeavingWith? || phase.Ended?
  }

  lemma FaultBeginsAt(states: seq<State>, steps: seq<Step>, cfg: Config, j: nat)
    requires IsRun(states, steps, cfg) && j < |steps| && !HasFault(states[j].phase) && HasFault(states[j + 1].phase)
    ensures var t := states[j + 1];
            && t.turns == states[j].turns && |t.received| == |t.turns| + 1
            && Justifies(states[j], steps[j], FaultOf(t.phase), t.received[|t.turns|], cfg)
  {
    RunConn(states, steps, cfg, j);
    RunLocal(states, steps, cfg, j);
    RunTurns(states, steps, cfg, j);
    StepAt(states, steps, cfg, j);
    FaultBegins(states[j], steps[j], cfg);
  }

  lemma {:induction false} FaultStaysFrom(states: seq<State>, steps: seq<Step>, cfg: Config, j: nat, k: nat)
    requires IsRun(states, steps, cfg) && j <= k < |states| && HasFault(states[j].phase)
    ensures HasFault(states[k].phase) && FaultOf(states[k].phase) == FaultOf(states[j].phase)
    ensures states[k].turns == states[j].turns && states[k].received == states[j].received
    decreases k
  {
    if j < k {
      FaultStaysFrom(states, steps, cfg, j, k - 1);
      StepAt(states, steps, cfg, k - 1);
      FaultStays(states[k - 1], steps[k - 1], cfg);
    }
  }

  /** The step at which the loop got its fault. */
  lemma {:induction false} FaultStart(states: seq<State>, steps: seq<Step>, cfg: Config, k: nat) returns (j: nat)
    requires IsRun(states, steps, cfg) && k < |states| && HasFault(states[k].phase)
    ensures j < k && !HasFault(states[j].phase) && HasFault(states[j + 1].phase)
  {
    if HasFault(states[k - 1].phase) {
      j := FaultStart(states, steps, cfg, k - 1);
    } else {
      j := k - 1;
    }
  }

  /** When the loop has ended, or is about to, the frame it did not serve and one step of the run say why. */
  lemma EndHasCause(states: seq<State>, steps: seq<Step>, cfg: Config, k: nat) returns (j: nat)
    requires IsRun(states, steps, cfg) && k < |states| && HasFault(states[k].phase)
    ensures |states[k].received| == |states[k].turns| + 1
    ensures j < k && states[j].turns == states[k].turns
    ensures Justifies(states[j], steps[j], FaultOf(states[k].phase), states[k].received[|states[k].turns|], cfg)
  {
    j := FaultStart(states, steps, cfg, k);
    FaultBeginsAt(states, steps, cfg, j);
    FaultStaysFrom(states, steps, cfg, j + 1, k);
  }

  predicate HasOutcome(phase: Phase, cfg: Config)
  {
    (phase.Answering? || phase.Sending?) && IsInvoke(phase.input, cfg)
  }

  lemma OutcomeArrives(s: State, step: Step, cfg: Config)
    requires Enabled(s, step, cfg) && HasOutcome(Apply(s, step, cfg).phase, cfg)
    ensures var t := Apply(s, step, cfg);
            && t.turns == s.turns
            && ((HasOutcome(s.phase, cfg) && s.phase.input == t.phase.input && s.phase.outcome == t.phase.outcome)
                || (s.phase == Dispatching(t.phase.input) && step == Dispatch(t.phase.outcome)))
  {
  }

  /** The outcome in the loop's hands is the one the hub method returned for this very frame. */
  lemma {:induction false} HandOutcome(states: seq<State>, steps: seq<Step>, cfg: Config, k: nat) returns (j: nat)
    requires IsRun(states, steps, cfg) && k < |states| && HasOutcome(states[k].phase, cfg)
    ensures j < k && states[j].turns == states[k].turns
    ensures states[j].phase == Dispatching(states[k].phase.input) && steps[j] == Dispatch(states[k].phase.outcome)
  {
    StepAt(states, steps, cfg, k - 1);
    OutcomeArrives(states[k - 1], steps[k - 1], cfg);
    if HasOutcome(states[k - 1].phase, cfg) {
      j := HandOutcome(states, steps, cfg, k - 1);
    } else {
      j := k - 1;
    }
  }

  /** One more turn: a Pong, a Message that was dispatched, or a frame whose reply was being sent. */
  lemma OneMoreTurn(s: State, step: Step, cfg: Config)
    requires LocalInv(s, cfg) && Enabled(s, step, cfg)
    ensures var t := Apply(s, step, cfg);
            && |s.turns| <= |t.turns| <= |s.turns| + 1 && t.turns[..|s.turns|] == s.turns
            && (|t.turns| > |s.turns| ==>
                  var turn := t.turns[|s.turns|];
                  || (Readable(turn.0, cfg) && KindOf(turn.0, cfg) == 5)
                  || (s.phase == Dispatching(turn.0) && step == Dispatch(turn.1.dispatched))
                  || (s.phase == Sending(turn.0, turn.1.dispatched) && Asks(turn.0, cfg.codec, cfg.maxPayload)))
  {
  }

  lemma {:induction false} TurnsGrow(states: seq<State>, steps: seq<Step>, cfg: Config, j: nat, k: nat)
    requires IsRun(states, steps, cfg) && j <= k < |states|
    ensures states[j].turns <= states[k].turns
    decreases k
  {
    if j < k {
      TurnsGrow(states, steps, cfg, j, k - 1);
      RunLocal(states, steps, cfg, k - 1);
      StepAt(states, steps, cfg, k - 1);
      OneMoreTurn(states[k - 1], steps[k - 1], cfg);
    }
  }

  /** The step at which turn `i` was recorded. */
  lemma {:induction false} TurnStart(states: seq<State>, steps: seq<Step>, cfg: Config, k: nat, i: nat) returns (j: nat)
    requires IsRun(states, steps, cfg) && k < |states| && i < |states[k].turns|
    ensures j < k && |states[j].turns| == i && |states[j + 1].turns| == i + 1
  {
    if i < |states[k - 1].turns| {
      j := TurnStart(states, steps, cfg, k - 1, i);
    } else {
      j := k - 1;
      RunLocal(states, steps, cfg, j);
      StepAt(states, steps, cfg, j);
      OneMoreTurn(states[j], steps[j], cfg);
    }
  }

  lemma TurnAt(states: seq<State>, steps: seq<Step>, cfg: Config, l: nat) returns (j: nat)
    requires IsRun(states, steps, cfg) && l < |steps| && |states[l + 1].turns| == |states[l].turns| + 1
    requires var input := states[l + 1].turns[|states[l].turns|].0; Readable(input, cfg) && KindOf(input, cfg) <= 3
    ensures var turn := states[l + 1].turns[|states[l].turns|];
            j <= l && steps[j] == Dispatch(turn.1.dispatched) && states[j].phase == Dispatching(turn.0)
    ensures states[j].turns == states[l].turns
  {
    RunLocal(states, steps, cfg, l);
    StepAt(states, steps, cfg, l);
    OneMoreTurn(states[l], steps[l], cfg);
    if states[l].phase.Dispatching? {
      j := l;
    } else {
      j := HandOutcome(states, steps, cfg, l);
    }
  }

  /**
   Every Message and Invoke that was served ran its hub method when it was its turn, and is recorded with what that
   method returned.
   */
  lemma OutcomeWasDispatched(states: seq<State>, steps: seq<Step>, cfg: Config, k: nat, i: nat) returns (j: nat)
    requires IsRun(states, steps, cfg) && k < |states| && i < |states[k].turns|
    requires Readable(states[k].turns[i].0, cfg) && KindOf(states[k].turns[i].0, cfg) <= 3
    ensures j < k && steps[j] == Dispatch(states[k].turns[i].1.dispatched)
    ensures states[j].phase == Dispatching(states[k].turns[i].0) && |states[j].turns| == i
  {
    var l := TurnStart(states, steps, cfg, k, i);
    TurnsGrow(states, steps, cfg, l + 1, k);
    assert states[l + 1].turns[i] == states[k].turns[i];
    j := TurnAt(states, steps, cfg, l);
  }

  lemma SendGoesOn(s: State, cfg: Config) returns (step: Step)
    requires OwnInv(s, cfg) && s.phase.Sending?
    requires C.Inv(s.conn)
    ensures Enabled(s, step, cfg)
    ensures !step.Receive? && (step.Other? ==> step.st.DiscardTake? || step.st.DiscardEnd? || step.st.FinishDiscard?)
  {
    match s.conn.senders[s.slot]
    case Preparing(_) =>
      step := if Wanted(s.phase.input, s.phase.outcome, cfg).Fails? then SendOn(C.PrepareFails(s.slot))
              else SendOn(C.LookAtContexts(s.slot, false));
    case Checked(_) =>
      step := if C.SendMuFree(s.conn) then SendOn(C.Enqueue(s.slot, false))
              else if s.conn.writer.DiscardEnding? then Other(C.DiscardEnd)
              else if s.conn.queue != [] then Other(C.DiscardTake)
              else Other(C.FinishDiscard);
    case FoundFull => step := SendOn(C.Disconnect(s.slot));
    case Failing => step := SendOn(C.EndFailed(s.slot));
  }

  /** While it waits for input, anything may arrive. */
  lemma MayReceive(s: State, cfg: Config, input: Inbound)
    requires s.phase.Reading?
    ensures Enabled(s, Receive(input), cfg)
    ensures Apply(s, Receive(input), cfg).received == s.received + [input]
  {
  }

  /** Meanwhile the connection's other goroutines do whatever they can. */
  lemma OthersMay(s: State, cfg: Config, st: C.Step)
    requires C.Enabled(s.conn, st)
    requires match st
             case StartSend(i, _) => i != s.slot
             case PrepareFails(i) => i != s.slot
             case LookAtContexts(i, _) => i != s.slot
             case Enqueue(i, _) => i != s.slot
             case Disconnect(i) => i != s.slot
             case EndFailed(i) => i != s.slot
             case StartHandler(t) => t != s.handler
             case StopHandler(t) => t != s.handler
             case _ => true
    ensures Enabled(s, Other(st), cfg) && Apply(s, Other(st), cfg) == s.(conn := C.Apply(s.conn, st))
  {
  }

  /** Unless it waits for input or has ended, the loop can go on, or the writer that holds the queue's lock can. */
  lemma LoopGoesOn(states: seq<State>, steps: seq<Step>, cfg: Config, k: nat, outcome: Dispatched) returns (step: Step)
    requires IsRun(states, steps, cfg) && k < |states| && !states[k].phase.Reading? && !states[k].phase.Ended?
    ensures Enabled(states[k], step, cfg)
    ensures !step.Receive? && (step.Other? ==> step.st.DiscardTake? || step.st.DiscardEnd? || step.st.FinishDiscard?)
  {
    RunLocal(states, steps, cfg, k);
    match states[k].phase
    case Admitting(_) => step := Admit;
    case Dispatching(_) => step := Dispatch(outcome);
    case Answering(_, _) => step := BeginReply;
    case Leaving => step := Leave;
    case LeavingWith(_) => step := Leave;
    case Sending(_, _) =>
      RunConn(states, steps, cfg, k);
      step := SendGoesOn(states[k], cfg);
  }

  /** How many steps of its own the loop still has to take over the frame in its hands; `x` is its sender. */
  function LoopWork(phase: Phase, x: C.Sender): int
  {
    match phase
    case Reading => 0
    case Ended(_) => 0
    case Leaving => 1
    case LeavingWith(_) => 1
    case Sending(_, _) => 2 + C.SenderWork(x)
    case Answering(_, _) => 10
    case Dispatching(_) => 11
    case Admitting(_) => 12
  }

  lemma SlotRunsDown(conn: C.Conn, st: C.Step, slot: nat)
    requires C.Enabled(conn, st) && OfSlot(st, slot) && !st.StartSend?
    ensures slot < |conn.senders| && slot < |C.Apply(conn, st).senders|
    ensures C.SenderWork(C.Apply(conn, st).senders[slot]) < C.SenderWork(conn.senders[slot])
  {
  }

  lemma PhaseAfterSend(s: State, st: C.Step, cfg: Config)
    requires Enabled(s, SendOn(st), cfg)
    ensures var t := AfterSend(s, st, cfg);
            && t.conn == C.Apply(s.conn, st) && t.slot == s.slot
            && (t.phase == s.phase || t.phase.Leaving? || t.phase.Reading? || t.phase.LeavingWith? || t.phase.Ended?)
  {
  }

  lemma SendRunsDown(s: State, st: C.Step, cfg: Config)
    requires OwnInv(s, cfg) && Enabled(s, SendOn(st), cfg)
    ensures var t := AfterSend(s, st, cfg);
            && t.slot < |t.conn.senders|
            && LoopWork(t.phase, t.conn.senders[t.slot]) < LoopWork(s.phase, s.conn.senders[s.slot])
  {
    SlotRunsDown(s.conn, st, s.slot);
    PhaseAfterSend(s, st, cfg);
  }

  lemma OtherwiseRunsDown(s: State, step: Step, cfg: Config)
    requires OwnInv(s, cfg) && Enabled(s, step, cfg)
    requires step.Admit? || step.Dispatch? || step.BeginReply? || step.Leave?
    ensures var t := Apply(s, step, cfg);
            && t.slot < |t.conn.senders|
            && LoopWork(t.phase, t.conn.senders[t.slot]) < LoopWork(s.phase, s.conn.senders[s.slot])
  {
  }

  /**
   Each of its own steps brings the loop closer to the next frame, at most twelve away; nobody else's sets it back.
   */
  lemma LoopWorkRunsDown(s: State, step: Step, cfg: Config)
    requires LocalInv(s, cfg) && Enabled(s, step, cfg) && !step.Receive?
    ensures var t := Apply(s, step, cfg);
            && t.slot < |t.conn.senders|
            && var before, after :=
                 LoopWork(s.phase, s.conn.senders[s.slot]), LoopWork(t.phase, t.conn.senders[t.slot]);
               0 <= before <= 12 && if step.Other? then after == before else after < before
  {
    if step.Other? {
      OthersKeepAway(s.conn, step.st, s.slot, s.handler);
    } else if step.SendOn? {
      SendRunsDown(s, step.st, cfg);
    } else {
      OtherwiseRunsDown(s, step, cfg);
    }
  }

  // ---- the theorems -------------------------------------------------------------------

  /**
   However the goroutines of the connection interleave: the frames served are the first ones received, all but at most
   the last; the replies answer, one each and in order, the Pings and Invokes among them; and in the connection's queue
   they went in that same order, with other senders' frames between them.
   */
  lemma RepliesInOrder(states: seq<State>, steps: seq<Step>, cfg: Config, k: nat)
    requires IsRun(states, steps, cfg) && k < |states|
    ensures var s := states[k];
            && |s.turns| <= |s.received| <= |s.turns| + 1
            && (forall i :: 0 <= i < |s.turns| ==> s.turns[i].0 == s.received[i])
            && (forall i :: 0 <= i < |s.turns| ==> !Ends(s.turns[i].0, s.turns[i].1, cfg.codec, cfg.maxPayload))
            && (s.phase.Ended? ==> |s.received| == |s.turns| + 1)
            && Answered(s.turns, s.replies, cfg.codec, cfg.maxPayload)
            && Subsequence(s.replies, s.conn.accepted)
  {
    RunSound(states, steps, cfg, k);
    forall i | 0 <= i < |states[k].turns|
      ensures !Ends(states[k].turns[i].0, states[k].turns[i].1, cfg.codec, cfg.maxPayload)
    {
      FailsExactly(states[k].turns[i].0, states[k].turns[i].1, cfg.codec, cfg.maxPayload);
    }
    RunTurns(states, steps, cfg, k);
    RunLog(states, steps, cfg, k);
  }

  /** Once the connection has drained without being cancelled, the socket has taken all those replies, in order. */
  lemma RepliesDelivered(states: seq<State>, steps: seq<Step>, cfg: Config, k: nat)
    requires IsRun(states, steps, cfg) && k < |states|
    requires Drained(states[k].conn.ops) && !states[k].conn.cancelled
    ensures Subsequence(states[k].replies, states[k].conn.written)
    ensures var phase := states[k].phase;
            phase.Reading? || phase.Admitting? || phase.Answering? || phase.Ended?
  {
    RunConn(states, steps, cfg, k);
    RunLocal(states, steps, cfg, k);
    RunLog(states, steps, cfg, k);
    C.DrainedIsQuiet(states[k].conn);
  }

  /** An Invoke inside its handler operation is never refused its reply by the drain check, whoever drains meanwhile. */
  lemma InvokeMayReply(states: seq<State>, steps: seq<Step>, cfg: Config, k: nat, frame: Frame)
    requires IsRun(states, steps, cfg) && k < |states|
    requires states[k].phase.Answering? && IsInvoke(states[k].phase.input, cfg)
    ensures C.Enabled(states[k].conn, C.StartSend(states[k].slot, frame))
    ensures Enabled(states[k], BeginReply, cfg) && Apply(states[k], BeginReply, cfg).phase.Sending?
  {
    RunConn(states, steps, cfg, k);
    RunLocal(states, steps, cfg, k);
    SendAllowedInside(states[k], cfg);
  }

  /**
   A reply that was due and is missing has a cause: it could not be framed, the connection has been cancelled, or it was
   a Pong refused by a connection that drains with no handler running.
   */
  lemma MissingReplyHasCause(states: seq<State>, steps: seq<Step>, cfg: Config, k: nat)
    requires IsRun(states, steps, cfg) && k < |states| && states[k].phase.Ended?
    ensures states[k].phase.fault.ReplyNotQueued? ==> states[k].conn.cancelled
    ensures states[k].phase.fault.ReplyRefused? || states[k].phase.fault.HandlerRefused? ==> states[k].conn.ops.draining
    ensures states[k].handler !in states[k].conn.running
  {
    RunLocal(states, steps, cfg, k);
  }
}
