/**
 What becomes of a frame, and why, in every run of one connection: a frame that can go through does, one that does not
 was stopped for a reason, a cancelled connection was cancelled by somebody, and no goroutine stops half way.
 */
module ConnectionOutcomes {
  import opened Operations
  import opened ConnectionRuns

  lemma StepAt(states: seq<Conn>, steps: seq<Step>, k: nat)
    requires IsRun(states, steps) && k < |steps|
    ensures Enabled(states[k], steps[k]) && states[k + 1] == Apply(states[k], steps[k])
  {
  }

  // ---- a frame that goes through ------------------------------------------------------

  ghost predicate Leads(s: Conn, st: Step, t: Conn)
  {
    Enabled(s, st) && t == Apply(s, st)
  }

  /**
   On a connection that is not cancelled and whose queue has room, a sender that may begin gets its frame into the queue
   behind all others, and leaves everything else as it was but for the operation that now belongs to the frame.
   */
  lemma SendIsQueued(s: Conn, i: nat, frame: Frame) returns (s1: Conn, s2: Conn, t: Conn)
    requires Inv(s) && i < |s.senders| && s.senders[i].Idle?
    requires s.handedOut == {} || s.running != {}
    requires !s.cancelled && |s.queue| < s.capacity
    ensures Leads(s, StartSend(i, frame), s1) && Leads(s1, LookAtContexts(i, false), s2)
    ensures Leads(s2, Enqueue(i, true), t)
    ensures t.queue == s.queue + [frame] && t.accepted == s.accepted + [frame]
    ensures t.ops.active == s.ops.active + 1
    ensures t == s.(queue := t.queue, accepted := t.accepted, ops := t.ops)
  {
    assert s.running != {} <==> |s.running| > 0;
    s1 := Apply(s, StartSend(i, frame));
    s2 := Apply(s1, LookAtContexts(i, false));
    t := Apply(s2, Enqueue(i, true));
    assert t.senders == s.senders;
  }

  /** A writer that waits takes the oldest frame of the queue to the socket, and one operation less is active. */
  lemma QueuedIsWritten(s: Conn) returns (s1: Conn, s2: Conn, t: Conn)
    requires Inv(s) && s.writer.Waiting? && s.queue != []
    ensures Leads(s, Take, s1) && Leads(s1, WriteOk, s2) && Leads(s2, EndWrite, t)
    ensures t.written == s.written + [s.queue[0]] && t.queue == s.queue[1..]
    ensures t.ops.active == s.ops.active - 1 && t.ops.done == s.ops.done
    ensures t == s.(queue := t.queue, written := t.written, ops := t.ops)
  {
    SendersNonNegative(s);
    s1 := Apply(s, Take);
    s2 := Apply(s1, WriteOk);
    t := Apply(s2, EndWrite);
  }

  // ---- decisions ----------------------------------------------------------------------

  /** A sender gives up at its first look exactly if one of the two contexts is done. */
  lemma LookDecides(states: seq<Conn>, steps: seq<Step>, k: nat)
    requires IsRun(states, steps) && k < |steps| && steps[k].LookAtContexts?
    ensures var i := steps[k].i;
            && i < |states[k].senders| && i < |states[k + 1].senders|
            && (states[k + 1].senders[i].Failing? <==> steps[k].callerDone || states[k].cancelled)
            && (!states[k + 1].senders[i].Failing? ==> states[k + 1].senders[i] == Checked(states[k].senders[i].frame))
  {
    StepAt(states, steps, k);
  }

  /**
   The select under `sendMu`. The frame is accepted only into an open queue with room, and always if the connection is
   not cancelled besides; the sender finds the queue full only if it is, on a connection not cancelled.
   */
  lemma EnqueueDecides(states: seq<Conn>, steps: seq<Step>, k: nat)
    requires IsRun(states, steps) && k < |steps| && steps[k].Enqueue?
    ensures var i, s, t := steps[k].i, states[k], states[k + 1];
            && i < |s.senders| && i < |t.senders| && s.senders[i].Checked?
            && (t.senders[i].Idle? <==> t.accepted != s.accepted)
            && (t.senders[i].Idle? ==>
                  t.accepted == s.accepted + [s.senders[i].frame] && !s.sendClosed && |s.queue| < s.capacity)
            && (!s.sendClosed && |s.queue| < s.capacity && !s.cancelled ==> t.senders[i].Idle?)
            && (t.senders[i].FoundFull? <==> !s.sendClosed && !s.cancelled && |s.queue| >= s.capacity)
            && (t.senders[i].Failing? ==> s.cancelled)
            && t.cancelled == s.cancelled
  {
    RunInv(states, steps, k);
    StepAt(states, steps, k);
  }

  // ---- causes -------------------------------------------------------------------------

  /** What makes a sender fail. */
  ghost predicate MakesFail(s: Conn, st: Step, i: nat)
  {
    || st == PrepareFails(i)
    || (st.LookAtContexts? && st.i == i && (st.callerDone || s.cancelled))
    || (st.Enqueue? && st.i == i && s.cancelled)
    || (st == Disconnect(i) && i < |s.senders| && s.senders[i].FoundFull?)
  }

  /** A sender that fails does so because its frame could not be built, a context was done, or the queue was full. */
  lemma {:induction false} FailureHasCause(states: seq<Conn>, steps: seq<Step>, k: nat, i: nat) returns (j: nat)
    requires IsRun(states, steps) && k < |states| && i < |states[k].senders| && states[k].senders[i].Failing?
    ensures j < k && MakesFail(states[j], steps[j], i)
  {
    StepAt(states, steps, k - 1);
    if i < |states[k - 1].senders| && states[k - 1].senders[i].Failing? {
      j := FailureHasCause(states, steps, k - 1, i);
    } else {
      j := k - 1;
      RunInv(states, steps, j);
    }
  }

  /** Only a full queue makes a sender disconnect the consumer. */
  lemma {:induction false} DisconnectedWhenFull(states: seq<Conn>, steps: seq<Step>, k: nat, i: nat) returns (j: nat)
    requires IsRun(states, steps) && k < |states| && i < |states[k].senders| && states[k].senders[i].FoundFull?
    ensures j < k && steps[j].Enqueue? && steps[j].i == i
    ensures |states[j].queue| == states[j].capacity && !states[j].cancelled
  {
    StepAt(states, steps, k - 1);
    if i < |states[k - 1].senders| && states[k - 1].senders[i].FoundFull? {
      j := DisconnectedWhenFull(states, steps, k - 1, i);
    } else {
      j := k - 1;
      RunInv(states, steps, j);
    }
  }

  /** A cancelled connection was closed by somebody, disconnected as a slow consumer, or had a write fail. */
  lemma {:induction false} CancelHasCause(states: seq<Conn>, steps: seq<Step>, k: nat) returns (j: nat)
    requires IsRun(states, steps) && k < |states| && states[k].cancelled
    ensures j < k && (steps[j].Cancel? || steps[j].Disconnect? || steps[j].CancelAfterFailure?)
    ensures steps[j].CancelAfterFailure? ==> states[j].failed != []
  {
    StepAt(states, steps, k - 1);
    if states[k - 1].cancelled {
      j := CancelHasCause(states, steps, k - 1);
    } else {
      j := k - 1;
      AfterFailedWrite(states, steps, j);
    }
  }

  /** A writer that is about to cancel has a failed write behind it. */
  lemma {:induction false} AfterFailedWrite(states: seq<Conn>, steps: seq<Step>, k: nat)
    requires IsRun(states, steps) && k < |states|
    ensures states[k].writer.WriteFailed? ==> states[k].failed != []
  {
    if k > 0 {
      AfterFailedWrite(states, steps, k - 1);
      StepAt(states, steps, k - 1);
    }
  }

  /** Every one of these steps cancels the connection, and it stays cancelled. */
  lemma {:induction false} CancelStays(states: seq<Conn>, steps: seq<Step>, j: nat, k: nat)
    requires IsRun(states, steps) && j < k < |states|
    requires steps[j].Cancel? || steps[j].Disconnect? || steps[j].CancelAfterFailure?
    ensures states[k].cancelled
    decreases k
  {
    StepAt(states, steps, k - 1);
    if j + 1 < k {
      CancelStays(states, steps, j, k - 1);
    }
  }

  /** What a sender carries is what it began with. */
  lemma {:induction false} CarriedWasSent(states: seq<Conn>, steps: seq<Step>, k: nat, i: nat) returns (j: nat)
    requires IsRun(states, steps) && k < |states| && i < |states[k].senders|
    requires states[k].senders[i].Preparing? || states[k].senders[i].Checked?
    ensures j < k && steps[j] == StartSend(i, states[k].senders[i].frame)
  {
    StepAt(states, steps, k - 1);
    var before := states[k - 1].senders;
    if i < |before| && (before[i].Preparing? || before[i].Checked?) && before[i].frame == states[k].senders[i].frame {
      j := CarriedWasSent(states, steps, k - 1, i);
    } else {
      j := k - 1;
    }
  }

  /** Every accepted frame is one that a sender began with. */
  lemma {:induction false} AcceptedWasSent(states: seq<Conn>, steps: seq<Step>, k: nat, n: nat) returns (j: nat, i: nat)
    requires IsRun(states, steps) && k < |states| && n < |states[k].accepted|
    ensures j < k && steps[j] == StartSend(i, states[k].accepted[n])
  {
    StepAt(states, steps, k - 1);
    if n < |states[k - 1].accepted| {
      j, i := AcceptedWasSent(states, steps, k - 1, n);
    } else {
      i := steps[k - 1].i;
      j := CarriedWasSent(states, steps, k - 1, i);
    }
  }

  // ---- nobody stops half way ----------------------------------------------------------

  /** A sender between begin and end can go on, or the writer that holds `sendMu` can. */
  lemma SenderGoesOn(s: Conn, i: nat) returns (st: Step)
    requires Inv(s) && i < |s.senders| && !s.senders[i].Idle?
    ensures Enabled(s, st)
    ensures match st
            case LookAtContexts(j, _) => j == i
            case Enqueue(j, _) => j == i
            case Disconnect(j) => j == i
            case EndFailed(j) => j == i
            case _ => st.DiscardTake? || st.DiscardEnd? || st.FinishDiscard?
  {
    match s.senders[i]
    case Preparing(_) => st := LookAtContexts(i, false);
    case Checked(_) =>
      st := if SendMuFree(s) then Enqueue(i, false)
            else if s.writer.DiscardEnding? then DiscardEnd
            else if s.queue != [] then DiscardTake
            else FinishDiscard;
    case FoundFull => st := Disconnect(i);
    case Failing => st := EndFailed(i);
  }

  predicate IsWriterStep(st: Step)
  {
    || st.Take? || st.SeeCancel? || st.WriteOk? || st.WriteFail? || st.CancelAfterFailure? || st.EndWrite?
    || st.StartDiscard? || st.DiscardTake? || st.DiscardEnd? || st.FinishDiscard?
  }

  /** The writer can go on unless it has exited or waits on a connection that is alive and has nothing queued. */
  lemma WriterGoesOn(s: Conn, writeFails: bool) returns (st: Step)
    requires Inv(s) && !s.writer.Exited?
    requires s.writer.Waiting? ==> s.cancelled || s.queue != []
    ensures Enabled(s, st) && IsWriterStep(st)
    ensures s.writer.Waiting? && s.cancelled ==> st.SeeCancel?
    ensures s.writer.Writing? ==> if writeFails then st.WriteFail? else st.WriteOk?
  {
    match s.writer
    case Waiting => st := if s.cancelled then SeeCancel else Take;
    case Writing(_) => st := if writeFails then WriteFail else WriteOk;
    case WriteFailed => st := CancelAfterFailure;
    case Ending(_) => st := EndWrite;
    case BeforeDiscard => st := StartDiscard;
    case Discarding => st := if s.queue != [] then DiscardTake else FinishDiscard;
    case DiscardEnding => st := DiscardEnd;
  }

  /** What may follow what in the writer goroutine; `drained`: the discard loop has emptied the queue. */
  predicate WriterFollows(a: Step, b: Step)
  {
    match a
    case Take => b.WriteOk? || b.WriteFail?
    case SeeCancel => b.StartDiscard?
    case WriteOk => b.EndWrite?
    case WriteFail => b.CancelAfterFailure?
    case CancelAfterFailure => b.EndWrite?
    case EndWrite => b.Take? || b.SeeCancel? || b.StartDiscard?
    case StartDiscard => b.DiscardTake? || b.FinishDiscard?
    case DiscardTake => b.DiscardEnd?
    case DiscardEnd => b.DiscardTake? || b.FinishDiscard?
    case _ => false
  }

  lemma {:induction false} WriterStays(states: seq<Conn>, steps: seq<Step>, j: nat, k: nat)
    requires IsRun(states, steps) && j <= k < |states|
    requires forall i :: j <= i < k ==> !IsWriterStep(steps[i])
    ensures states[k].writer == states[j].writer
    decreases k
  {
    if j < k {
      WriterStays(states, steps, j, k - 1);
      StepAt(states, steps, k - 1);
    }
  }

  /** Between one step of the writer and its next one, whatever the others do, it skips nothing. */
  lemma WriterInOrder(states: seq<Conn>, steps: seq<Step>, j: nat, k: nat)
    requires IsRun(states, steps) && j < k < |steps| && IsWriterStep(steps[j]) && IsWriterStep(steps[k])
    requires forall i :: j < i < k ==> !IsWriterStep(steps[i])
    ensures WriterFollows(steps[j], steps[k])
  {
    RunInv(states, steps, j);
    StepAt(states, steps, j);
    StepAt(states, steps, k);
    WriterStays(states, steps, j + 1, k);
  }

  /** New senders, drains and cancellations may come at any moment, and a frame may fail to be built. */
  lemma MayCome(s: Conn, i: nat)
    ensures Enabled(s, Spawn) && Enabled(s, Drain) && Enabled(s, Cancel)
    ensures Apply(s, Spawn).senders == s.senders + [Sender.Idle]
    ensures Apply(s, Drain).ops.draining && s.ops.done in Apply(s, Drain).handedOut
    ensures i < |s.senders| && s.senders[i].Preparing? ==>
              Enabled(s, PrepareFails(i)) && Apply(s, PrepareFails(i)).senders[i].Failing?
  {
  }

  /** The discard loop holds `sendMu` from its start to its end, so nothing is queued behind its back. */
  lemma NothingQueuedMeanwhile(states: seq<Conn>, steps: seq<Step>, k: nat)
    requires IsRun(states, steps) && k < |steps| && steps[k].Enqueue?
    ensures !states[k].writer.Discarding? && !states[k].writer.DiscardEnding?
  {
    StepAt(states, steps, k);
  }

  /** A handler that begins runs until it stops. */
  lemma HandlerRuns(states: seq<Conn>, steps: seq<Step>, k: nat, t: nat)
    requires IsRun(states, steps) && k < |steps|
    ensures steps[k] == StartHandler(t) ==> t in states[k + 1].running
    ensures steps[k] == StopHandler(t) ==> t in states[k].running && t !in states[k + 1].running
    ensures t in states[k].running && t !in states[k + 1].running ==> steps[k] == StopHandler(t)
  {
    StepAt(states, steps, k);
  }

  /** Operations may begin whenever the drain check lets them. */
  lemma MayBegin(s: Conn, i: nat, t: nat, frame: Frame)
    requires Inv(s)
    ensures i < |s.senders| && s.senders[i].Idle? && (s.handedOut == {} || s.running != {}) ==>
              Enabled(s, StartSend(i, frame))
    ensures t !in s.running && s.handedOut == {} ==> Enabled(s, StartHandler(t))
    ensures t in s.running ==> Enabled(s, StopHandler(t))
  {
    assert s.running != {} <==> |s.running| > 0;
  }
}
