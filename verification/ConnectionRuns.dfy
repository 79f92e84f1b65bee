/**
 Every interleaving of one connection (connection.go): any number of sending goroutines and handlers,
 the writer goroutine with its discard loop, drainers and closers. Sections under `opsMu` and `sendMu`
 are single steps; everything else is split where another goroutine can run.
 Frames are their contents; who owns the bytes is the subject of module Buffers.
 */
module ConnectionRuns {
  import opened Operations
  import opened Sums

  /** A sending goroutine, from `beginSendOperation` to a queued frame or to `endOperation`. */
  datatype Sender =
    | Idle
    | Preparing(frame: Frame)   // begun, frame being validated and built
    | Checked(frame: Frame)     // past the first look at both contexts
    | FoundFull                 // queue was full, consumer not yet disconnected
    | Failing                   // will call endOperation

  /** The writer goroutine. It holds `sendMu` in the two Discard phases. */
  datatype Writer =
    | Waiting
    | Writing(frame: Frame)
    | WriteFailed               // socket error, context not yet cancelled
    | Ending(ok: bool)          // write over, endOperation not yet called
    | BeforeDiscard
    | Discarding
    | DiscardEnding             // one frame dropped, its endOperation not yet called
    | Exited

  datatype Conn = Conn(
    ops: Ops,
    capacity: nat,
    queue: seq<Frame>,
    sendClosed: bool,
    cancelled: bool,
    running: set<nat>,          // handler operations between begin and end
    senders: seq<Sender>,
    writer: Writer,
    handedOut: set<nat>,        // channels returned by beginDrain
    accepted: seq<Frame>,       // history: frames put on the queue
    written: seq<Frame>,        // history: frames the socket took
    failed: seq<Frame>,         // history: frames whose write failed
    discarded: seq<Frame>)      // history: frames dropped by the discard loop

  datatype Step =
    | Spawn
    | StartSend(i: nat, frame: Frame)
    | PrepareFails(i: nat)
    | LookAtContexts(i: nat, callerDone: bool)
    | Enqueue(i: nat, preferCancel: bool)
    | Disconnect(i: nat)
    | EndFailed(i: nat)
    | StartHandler(t: nat)
    | StopHandler(t: nat)
    | Drain
    | Cancel
    | Take
    | SeeCancel
    | WriteOk
    | WriteFail
    | CancelAfterFailure
    | EndWrite
    | StartDiscard
    | DiscardTake
    | DiscardEnd
    | FinishDiscard

  function New(capacity: nat): Conn
  {
    Conn(INITIAL, capacity, [], false, false, {}, [], Waiting, {}, [], [], [], [])
  }

  predicate SendMuFree(s: Conn)
  {
    !s.writer.Discarding? && !s.writer.DiscardEnding?
  }

  predicate SenderAt(s: Conn, i: nat)
  {
    i < |s.senders|
  }

  predicate Enabled(s: Conn, st: Step)
  {
    match st
    case Spawn => true
    case StartSend(i, _) => SenderAt(s, i) && s.senders[i].Idle? && SendAllowed(s.ops)
    case PrepareFails(i) => SenderAt(s, i) && s.senders[i].Preparing?
    case LookAtContexts(i, _) => SenderAt(s, i) && s.senders[i].Preparing?
    case Enqueue(i, _) => SenderAt(s, i) && s.senders[i].Checked? && SendMuFree(s)
    case Disconnect(i) => SenderAt(s, i) && s.senders[i].FoundFull?
    case EndFailed(i) => SenderAt(s, i) && s.senders[i].Failing?
    case StartHandler(t) => t !in s.running && HandlerAllowed(s.ops)
    case StopHandler(t) => t in s.running
    case Drain => true
    case Cancel => true
    case Take => s.writer.Waiting? && s.queue != []
    case SeeCancel => s.writer.Waiting? && s.cancelled
    case WriteOk => s.writer.Writing?
    case WriteFail => s.writer.Writing?
    case CancelAfterFailure => s.writer.WriteFailed?
    case EndWrite => s.writer.Ending?
    case StartDiscard => s.writer.BeforeDiscard?
    case DiscardTake => s.writer.Discarding? && s.queue != []
    case DiscardEnd => s.writer.DiscardEnding?
    case FinishDiscard => s.writer.Discarding? && s.queue == []
  }

  function Apply(s: Conn, st: Step): Conn
    requires Enabled(s, st)
  {
    match st
    case Spawn => s.(senders := s.senders + [Idle])
    case StartSend(i, frame) => s.(ops := BeginSend(s.ops), senders := s.senders[i := Preparing(frame)])
    case PrepareFails(i) => s.(senders := s.senders[i := Failing])
    case LookAtContexts(i, callerDone) =>
      s.(senders := s.senders[i := if callerDone || s.cancelled then Failing else Checked(s.senders[i].frame)])
    case Enqueue(i, preferCancel) => ApplyEnqueue(s, i, preferCancel)
    case Disconnect(i) => s.(cancelled := true, senders := s.senders[i := Failing])
    case EndFailed(i) => s.(ops := EndLocked(s.ops), senders := s.senders[i := Idle])
    case StartHandler(t) => s.(ops := BeginHandler(s.ops), running := s.running + {t})
    case StopHandler(t) => s.(ops := EndHandler(s.ops), running := s.running - {t})
    case Drain => s.(ops := BeginDrain(s.ops), handedOut := s.handedOut + {s.ops.done})
    case Cancel => s.(cancelled := true)
    case Take => s.(queue := s.queue[1..], writer := Writing(s.queue[0]))
    case SeeCancel => s.(writer := BeforeDiscard)
    case WriteOk => s.(writer := Ending(true), written := s.written + [s.writer.frame])
    case WriteFail => s.(writer := WriteFailed, failed := s.failed + [s.writer.frame])
    case CancelAfterFailure => s.(cancelled := true, writer := Ending(false))
    case EndWrite => s.(ops := EndLocked(s.ops), writer := if s.writer.ok then Waiting else BeforeDiscard)
    case StartDiscard => if s.sendClosed then s.(writer := Exited) else s.(sendClosed := true, writer := Discarding)
    case DiscardTake => s.(queue := s.queue[1..], writer := DiscardEnding, discarded := s.discarded + [s.queue[0]])
    case DiscardEnd => s.(ops := EndLocked(s.ops), writer := Discarding)
    case FinishDiscard => s.(writer := Exited)
  }

  /** The select under `sendMu`: when the queue has room and the context is cancelled, either case may be taken. */
  function ApplyEnqueue(s: Conn, i: nat, preferCancel: bool): Conn
    requires Enabled(s, Enqueue(i, preferCancel))
  {
    var frame := s.senders[i].frame;
    if s.sendClosed then s.(senders := s.senders[i := Failing])
    else if |s.queue| < s.capacity && !(s.cancelled && preferCancel) then
      s.(queue := s.queue + [frame], accepted := s.accepted + [frame], senders := s.senders[i := Idle])
    else if s.cancelled then s.(senders := s.senders[i := Failing])
    else s.(senders := s.senders[i := FoundFull])
  }

  ghost predicate IsRun(states: seq<Conn>, steps: seq<Step>)
  {
    && |states| == |steps| + 1
    && states[0] == New(states[0].capacity)
    && forall k {:trigger steps[k]} :: 0 <= k < |steps| ==>
          Enabled(states[k], steps[k]) && states[k + 1] == Apply(states[k], steps[k])
  }

  // ---- the invariant ------------------------------------------------------------------

  function SenderOps(x: Sender): int
  {
    if x.Idle? then 0 else 1
  }

  function WriterOps(w: Writer): nat
  {
    if w.Writing? || w.WriteFailed? || w.Ending? || w.DiscardEnding? then 1 else 0
  }

  /** Who answers for the active operations: handlers, senders, queued frames, and the frame in the writer's hands. */
  ghost predicate Ledger(s: Conn)
  {
    && s.ops.active == |s.running| + Sum(SenderOps, s.senders) + |s.queue| + WriterOps(s.writer)
    && s.ops.handlers == |s.running|
  }

  /** Every channel that beginDrain handed out is still the current one. */
  ghost predicate DrainInv(s: Conn)
  {
    && (s.handedOut != {} <==> s.ops.draining)
    && forall g :: g in s.handedOut ==> g == s.ops.done
  }

  function InHand(w: Writer): seq<Frame>
  {
    if w.Writing? then [w.frame] else []
  }

  predicate AfterLoop(w: Writer)
  {
    w.BeforeDiscard? || w.Discarding? || w.DiscardEnding? || w.Exited?
  }

  /** Every accepted frame is written, in the writer's hands, failed, discarded or queued, in this order. */
  ghost predicate LogInv(s: Conn)
  {
    s.accepted == s.written + InHand(s.writer) + s.failed + s.discarded + s.queue
  }

  ghost predicate FailureInv(s: Conn)
  {
    && |s.failed| <= 1
    && (s.failed != [] ==> s.writer.WriteFailed? || s.writer == Ending(false) || AfterLoop(s.writer))
    && (s.discarded != [] ==> s.sendClosed)
  }

  ghost predicate PhaseInv(s: Conn)
  {
    && (s.sendClosed <==> s.writer.Discarding? || s.writer.DiscardEnding? || s.writer.Exited?)
    && (AfterLoop(s.writer) || s.writer == Ending(false) ==> s.cancelled)
    && (s.writer.Exited? ==> s.queue == [])
    && |s.queue| <= s.capacity
  }

  ghost predicate Inv(s: Conn)
  {
    Ledger(s) && ChannelInv(s.ops) && DrainInv(s) && LogInv(s) && FailureInv(s) && PhaseInv(s)
  }

  lemma NewInv(capacity: nat)
    ensures Inv(New(capacity))
  {
  }

  /** The counts of the senders after a step, from the counts before it. */
  lemma SendersAfter(s: Conn, st: Step)
    requires Enabled(s, st)
    ensures Sum(SenderOps, Apply(s, st).senders) ==
            Sum(SenderOps, s.senders)
            + (if st.StartSend? then 1 else if st.EndFailed? then -1
               else if st.Enqueue? && Apply(s, st).accepted != s.accepted then -1 else 0)
  {
    match st
    case Spawn => SumAppend(SenderOps, s.senders, Idle);
    case StartSend(i, frame) => SumUpdate(SenderOps, s.senders, i, Preparing(frame));
    case PrepareFails(i) => SumUpdate(SenderOps, s.senders, i, Failing);
    case LookAtContexts(i, _) => SumUpdate(SenderOps, s.senders, i, Apply(s, st).senders[i]);
    case Enqueue(i, _) => SumUpdate(SenderOps, s.senders, i, Apply(s, st).senders[i]);
    case Disconnect(i) => SumUpdate(SenderOps, s.senders, i, Failing);
    case EndFailed(i) => SumUpdate(SenderOps, s.senders, i, Idle);
    case _ =>
  }

  lemma SendersNonNegative(s: Conn)
    ensures Sum(SenderOps, s.senders) >= 0
    ensures forall i :: 0 <= i < |s.senders| && !s.senders[i].Idle? ==> Sum(SenderOps, s.senders) >= 1
    ensures Sum(SenderOps, s.senders) > 0 ==> exists i :: 0 <= i < |s.senders| && !s.senders[i].Idle?
  {
    SumBounds(SenderOps, s.senders);
    forall i | 0 <= i < |s.senders| && !s.senders[i].Idle? ensures Sum(SenderOps, s.senders) >= 1 {
      assert SenderOps(s.senders[i]) == 1;
    }
  }

  predicate EndsOperation(st: Step)
  {
    st.EndFailed? || st.StopHandler? || st.EndWrite? || st.DiscardEnd?
  }

  /** A step that ends an operation has one to end, so the zero guards of the code are never taken. */
  lemma EndsAreOwed(s: Conn, st: Step)
    requires Ledger(s) && Enabled(s, st) && EndsOperation(st)
    ensures s.ops.active > 0
    ensures st.StopHandler? ==> s.ops.handlers > 0
  {
    SendersNonNegative(s);
    if st.StopHandler? {
      assert |s.running| > 0 by { assert st.t in s.running; }
    }
  }

  lemma KeepsLedger(s: Conn, st: Step)
    requires Ledger(s) && Enabled(s, st)
    ensures Ledger(Apply(s, st))
  {
    SendersAfter(s, st);
    if EndsOperation(st) {
      EndsAreOwed(s, st);
    }
    match st
    case StartHandler(t) => assert |s.running + {t}| == |s.running| + 1;
    case StopHandler(t) => assert |s.running - {t}| == |s.running| - 1;
    case _ =>
  }

  lemma KeepsChannelInv(s: Conn, st: Step)
    requires ChannelInv(s.ops) && Enabled(s, st)
    ensures ChannelInv(Apply(s, st).ops)
  {
    BeginKeepsChannelInv(s.ops);
    EndKeepsChannelInv(s.ops);
    if st.StopHandler? {
      EndKeepsChannelInv(if s.ops.handlers > 0 then s.ops.(handlers := s.ops.handlers - 1) else s.ops);
    }
  }

  /** While it drains, only a running handler lets a send begin, and then the channel in use is kept. */
  lemma KeepsDrainInv(s: Conn, st: Step)
    requires DrainInv(s) && (s.ops.handlers > 0 ==> s.ops.active > 0) && Enabled(s, st)
    ensures DrainInv(Apply(s, st))
  {
    var t := Apply(s, st);
    match st
    case StartSend(_, _) =>
    case StartHandler(_) =>
    case Drain =>
    case _ => assert t.ops.done == s.ops.done && t.ops.draining == s.ops.draining && t.handedOut == s.handedOut;
  }

  predicate MovesFrames(st: Step)
  {
    st.Enqueue? || st.Take? || st.WriteOk? || st.WriteFail? || st.DiscardTake?
  }

  lemma EnqueueKeepsLog(s: Conn, i: nat, preferCancel: bool)
    requires LogInv(s) && Enabled(s, Enqueue(i, preferCancel))
    ensures LogInv(ApplyEnqueue(s, i, preferCancel))
  {
    var t := ApplyEnqueue(s, i, preferCancel);
    assert t.accepted == s.accepted || t.accepted == s.written + InHand(s.writer) + s.failed + s.discarded + t.queue;
  }

  /** While a frame is on its way to the socket, none has failed or been dropped. */
  lemma WriteKeepsLog(s: Conn, st: Step)
    requires LogInv(s) && FailureInv(s) && PhaseInv(s) && Enabled(s, st) && (st.Take? || st.WriteOk? || st.WriteFail?)
    ensures LogInv(Apply(s, st))
  {
    assert s.failed == [] && s.discarded == [];
    if st.Take? {
      assert s.queue == [s.queue[0]] + s.queue[1..];
    }
  }

  lemma DropKeepsLog(s: Conn)
    requires LogInv(s) && Enabled(s, DiscardTake)
    ensures LogInv(Apply(s, DiscardTake))
  {
    assert s.queue == [s.queue[0]] + s.queue[1..];
  }

  lemma KeepsLogMoving(s: Conn, st: Step)
    requires LogInv(s) && FailureInv(s) && PhaseInv(s) && Enabled(s, st) && MovesFrames(st)
    ensures LogInv(Apply(s, st))
  {
    match st
    case Enqueue(i, preferCancel) => EnqueueKeepsLog(s, i, preferCancel);
    case DiscardTake => DropKeepsLog(s);
    case _ => WriteKeepsLog(s, st);
  }

  lemma KeepsLog(s: Conn, st: Step)
    requires LogInv(s) && FailureInv(s) && PhaseInv(s) && Enabled(s, st)
    ensures LogInv(Apply(s, st))
  {
    if MovesFrames(st) {
      KeepsLogMoving(s, st);
    } else {
      var t := Apply(s, st);
      assert t.accepted == s.accepted && t.queue == s.queue && t.written == s.written && t.failed == s.failed;
      assert t.discarded == s.discarded && InHand(t.writer) == InHand(s.writer);
    }
  }

  lemma KeepsFailures(s: Conn, st: Step)
    requires FailureInv(s) && PhaseInv(s) && Enabled(s, st)
    ensures FailureInv(Apply(s, st))
  {
  }

  lemma KeepsPhases(s: Conn, st: Step)
    requires PhaseInv(s) && Enabled(s, st)
    ensures PhaseInv(Apply(s, st))
  {
  }

  lemma KeepsInv(s: Conn, st: Step)
    requires Inv(s) && Enabled(s, st)
    ensures Inv(Apply(s, st))
  {
    KeepsLedger(s, st);
    KeepsChannelInv(s, st);
    SendersNonNegative(s);
    KeepsDrainInv(s, st);
    KeepsLog(s, st);
    KeepsFailures(s, st);
    KeepsPhases(s, st);
  }

  lemma {:induction false} RunInv(states: seq<Conn>, steps: seq<Step>, k: nat)
    requires IsRun(states, steps) && k < |states|
    ensures Inv(states[k])
  {
    if k == 0 {
      NewInv(states[0].capacity);
    } else {
      RunInv(states, steps, k - 1);
      KeepsInv(states[k - 1], steps[k - 1]);
    }
  }

  // ---- what holds in every run --------------------------------------------------------

  /**
   Operation ledger: in every reachable state each active operation has exactly one holder, the handler count
   is the number of running handlers, and the next step never decrements a count that is already zero.
   */
  lemma OperationLedger(states: seq<Conn>, steps: seq<Step>, k: nat)
    requires IsRun(states, steps) && k < |states|
    ensures var s := states[k];
            && s.ops.active == |s.running| + Sum(SenderOps, s.senders) + |s.queue| + WriterOps(s.writer)
            && s.ops.handlers == |s.running|
    ensures k < |steps| && EndsOperation(steps[k]) ==> states[k].ops.active > 0
    ensures k < |steps| && steps[k].StopHandler? ==> states[k].ops.handlers > 0
  {
    RunInv(states, steps, k);
    if k < |steps| && EndsOperation(steps[k]) {
      EndsAreOwed(states[k], steps[k]);
    }
  }

  /** Channels: the current one is closed exactly when nothing is active, and none is ever closed twice. */
  lemma ClosedExactlyWhenIdle(states: seq<Conn>, steps: seq<Step>, k: nat)
    requires IsRun(states, steps) && k < |states|
    ensures var o := states[k].ops;
            && (o.done in o.closes <==> o.active == 0)
            && forall g :: o.closes[g] <= 1
  {
    RunInv(states, steps, k);
    var o := states[k].ops;
    forall g ensures o.closes[g] <= 1 {
      if g in o.closes {
        assert o.closes[g] == 1;
      }
    }
  }

  lemma {:induction false} HandedOutGrows(states: seq<Conn>, steps: seq<Step>, j: nat, k: nat)
    requires IsRun(states, steps) && j <= k < |states|
    ensures states[j].handedOut <= states[k].handedOut
    decreases k
  {
    if j < k {
      HandedOutGrows(states, steps, j, k - 1);
      assert states[k - 1].handedOut <= Apply(states[k - 1], steps[k - 1]).handedOut;
    }
  }

  /** The channel that beginDrain returned is never replaced afterwards. */
  lemma DrainChannelStays(states: seq<Conn>, steps: seq<Step>, j: nat, k: nat, g: nat)
    requires IsRun(states, steps) && j <= k < |states|
    requires g in states[j].handedOut
    ensures states[k].ops.draining && states[k].ops.done == g
  {
    HandedOutGrows(states, steps, j, k);
    RunInv(states, steps, k);
  }

  /** No handler, no sender, no queued frame and no frame in the writer's hands. */
  ghost predicate Quiet(s: Conn)
  {
    && s.running == {} && s.queue == [] && WriterOps(s.writer) == 0
    && forall i :: 0 <= i < |s.senders| ==> s.senders[i].Idle?
  }

  /**
   A connection whose drain channel is closed is quiet, and if it was not cancelled every accepted frame was written.
   */
  lemma DrainedIsQuiet(s: Conn)
    requires Inv(s) && Drained(s.ops)
    ensures Quiet(s)
    ensures s.accepted == s.written + s.failed + s.discarded
    ensures !s.cancelled ==> s.accepted == s.written
  {
    SendersNonNegative(s);
    assert |s.running| == 0;
  }

  /** Same bookkeeping and same history. */
  ghost predicate Frozen(s: Conn, t: Conn)
  {
    && t.ops == s.ops && t.accepted == s.accepted && t.written == s.written
    && t.failed == s.failed && t.discarded == s.discarded
  }

  lemma DrainedStep(s: Conn, st: Step)
    requires Inv(s) && Drained(s.ops) && Enabled(s, st)
    ensures Frozen(s, Apply(s, st))
  {
    DrainedIsQuiet(s);
  }

  /**
   Drain finality: once the drain channel is closed, nothing begins, nothing is queued and nothing is dropped, for ever.
   */
  lemma {:induction false} DrainFinality(states: seq<Conn>, steps: seq<Step>, j: nat, k: nat)
    requires IsRun(states, steps) && j <= k < |states|
    requires Drained(states[j].ops)
    ensures Frozen(states[j], states[k])
    ensures Quiet(states[k]) && !SendAllowed(states[k].ops) && !HandlerAllowed(states[k].ops)
    decreases k
  {
    if j < k {
      DrainFinality(states, steps, j, k - 1);
      RunInv(states, steps, k - 1);
      DrainedStep(states[k - 1], steps[k - 1]);
    }
    RunInv(states, steps, k);
    DrainedIsQuiet(states[k]);
  }

  /**
   Writer order: what the socket took is a prefix of what was accepted, and when the writer exits nothing is left over.
   */
  lemma WriterOrder(states: seq<Conn>, steps: seq<Step>, k: nat)
    requires IsRun(states, steps) && k < |states|
    ensures var s := states[k];
            && s.written <= s.accepted
            && |s.failed| <= 1
            && (s.sendClosed ==> s.cancelled)
            && (s.writer.Exited? ==> s.queue == [] && s.accepted == s.written + s.failed + s.discarded)
  {
    RunInv(states, steps, k);
  }

  lemma ExitedStep(s: Conn, st: Step)
    requires Inv(s) && s.writer.Exited? && Enabled(s, st)
    ensures var t := Apply(s, st);
            t.writer.Exited? && t.accepted == s.accepted && t.queue == []
  {
  }

  /**
   No stranded frame: after the discard no frame is ever accepted, so the queue stays empty for the rest of the run.
   */
  lemma {:induction false} NothingAfterDiscard(states: seq<Conn>, steps: seq<Step>, j: nat, k: nat)
    requires IsRun(states, steps) && j <= k < |states|
    requires states[j].writer.Exited?
    ensures states[k].writer.Exited? && states[k].queue == [] && states[k].accepted == states[j].accepted
    decreases k
  {
    if j == k {
      RunInv(states, steps, k);
    } else {
      NothingAfterDiscard(states, steps, j, k - 1);
      RunInv(states, steps, k - 1);
      ExitedStep(states[k - 1], steps[k - 1]);
    }
  }

  /**
   A send is refused exactly when the connection drains and no handler runs; so a reply from inside a handler never is.
   */
  lemma RefusedExactlyWhen(states: seq<Conn>, steps: seq<Step>, k: nat)
    requires IsRun(states, steps) && k < |states|
    ensures SendAllowed(states[k].ops) <==> states[k].handedOut == {} || states[k].running != {}
    ensures HandlerAllowed(states[k].ops) <==> states[k].handedOut == {}
  {
    RunInv(states, steps, k);
    assert states[k].running != {} <==> |states[k].running| > 0;
  }

  // ---- draining terminates ------------------------------------------------------------

  function SenderWork(x: Sender): int
  {
    match x
    case Idle => 0
    case Preparing(_) => 7
    case Checked(_) => 6
    case FoundFull => 2
    case Failing => 1
  }

  function WriterWork(w: Writer): nat
  {
    match w
    case Waiting => 4
    case Writing(_) => 7
    case WriteFailed => 6
    case Ending(_) => 5
    case BeforeDiscard => 3
    case Discarding => 1
    case DiscardEnding => 2
    case Exited => 0
  }

  /** How many steps the goroutines still have to take on behalf of what has begun. */
  function Remaining(s: Conn): int
  {
    Sum(SenderWork, s.senders) + 4 * |s.queue| + WriterWork(s.writer)
  }

  /** Steps of a goroutine that finishes what it has begun, as opposed to starting something or being told something. */
  predicate IsWork(st: Step)
  {
    !(st.Spawn? || st.StartSend? || st.StartHandler? || st.StopHandler? || st.Drain? || st.Cancel?)
  }

  lemma SenderWorkAfter(s: Conn, st: Step)
    requires Enabled(s, st) && !st.StartSend?
    ensures var d := Sum(SenderWork, Apply(s, st).senders) - Sum(SenderWork, s.senders);
            && d <= 0
            && (st.PrepareFails? || st.LookAtContexts? || st.Disconnect? || st.EndFailed? ==> d < 0)
            && (st.Enqueue? ==> d + 4 * (|Apply(s, st).queue| - |s.queue|) < 0)
            && (!st.PrepareFails? && !st.LookAtContexts? && !st.Disconnect? && !st.EndFailed? && !st.Enqueue? ==>
                  d == 0)
  {
    match st
    case Spawn => SumAppend(SenderWork, s.senders, Idle);
    case PrepareFails(i) => SumUpdate(SenderWork, s.senders, i, Failing);
    case LookAtContexts(i, _) => SumUpdate(SenderWork, s.senders, i, Apply(s, st).senders[i]);
    case Enqueue(i, _) => SumUpdate(SenderWork, s.senders, i, Apply(s, st).senders[i]);
    case Disconnect(i) => SumUpdate(SenderWork, s.senders, i, Failing);
    case EndFailed(i) => SumUpdate(SenderWork, s.senders, i, Idle);
    case _ =>
  }

  /** Draining with no handler left. */
  predicate WindingDown(s: Conn)
  {
    s.ops.draining && s.ops.handlers == 0 && s.running == {}
  }

  /** While a drain waits with no handler running, every step of work uses the budget up and nothing refills it. */
  lemma WorkRunsDown(s: Conn, st: Step)
    requires WindingDown(s) && Enabled(s, st)
    ensures Remaining(Apply(s, st)) <= Remaining(s) - (if IsWork(st) then 1 else 0)
    ensures WindingDown(Apply(s, st))
  {
    SenderWorkAfter(s, st);
  }

  /** Steps of work from step `j` up to step `k`. */
  function WorkBetween(steps: seq<Step>, j: nat, k: nat): nat
    requires j <= k <= |steps|
  {
    if j == k then 0 else WorkBetween(steps, j, k - 1) + if IsWork(steps[k - 1]) then 1 else 0
  }

  /** Once a draining connection has no handler left, at most `Remaining` further steps of work can be taken. */
  lemma {:induction false} DrainIsBounded(states: seq<Conn>, steps: seq<Step>, j: nat, k: nat)
    requires IsRun(states, steps) && j <= k < |states| && WindingDown(states[j])
    ensures WindingDown(states[k])
    ensures WorkBetween(steps, j, k) + Remaining(states[k]) <= Remaining(states[j])
    decreases k
  {
    if j < k {
      DrainIsBounded(states, steps, j, k - 1);
      WorkRunsDown(states[k - 1], steps[k - 1]);
    }
  }

  /** And until the drain channel closes, some goroutine can take such a step: draining never gets stuck. */
  lemma DrainNotStuck(s: Conn) returns (st: Step)
    requires Inv(s) && s.ops.draining && s.running == {} && !Drained(s.ops)
    ensures IsWork(st) && Enabled(s, st)
  {
    SendersNonNegative(s);
    match s.writer
    case Writing(_) => return WriteOk;
    case WriteFailed => return CancelAfterFailure;
    case Ending(_) => return EndWrite;
    case BeforeDiscard => return StartDiscard;
    case Discarding => return if s.queue != [] then DiscardTake else FinishDiscard;
    case DiscardEnding => return DiscardEnd;
    case _ =>
      if s.queue != [] {
        return Take;
      }
      var i :| 0 <= i < |s.senders| && !s.senders[i].Idle?;
      match s.senders[i]
      case Preparing(_) => return PrepareFails(i);
      case Checked(_) => return Enqueue(i, false);
      case FoundFull => return Disconnect(i);
      case Failing => return EndFailed(i);
  }
}
