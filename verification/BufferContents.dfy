/**
 What goes through the buffers of module Buffers: a sender fills the buffer it holds and nobody else writes into it, so
 what a connection accepts is what its sender wrote last, for the connection the sender took the buffer for.
 */
module BufferContents {
  import opened Buffers
  import opened Sums

  lemma StepAt(states: seq<State>, steps: seq<Step>, k: nat)
    requires IsRun(states, steps) && k < |steps|
    ensures Enabled(states[k], steps[k]) && states[k + 1] == Apply(states[k], steps[k])
  {
  }

  predicate IsOpOf(st: Step, i: nat)
  {
    st.Send? && st.i == i
  }

  predicate Gets(op: SenderOp)
  {
    op.GetPooled? || op.GetFresh?
  }

  /** What a step leaves in the buffer of its sender, where `before` was what it held so far. */
  function Leaves(op: SenderOp, before: Bytes): Bytes
  {
    match op
    case GetPooled(_, _, data) => data
    case GetFresh(_, data) => data
    case FillRaw(data) => data
    case MarshalInPlace(data, _) => data
    case MarshalMoves(data, _) => data
    case Seal(data) => data
    case _ => before
  }

  /** What sender `i` wrote last, before step `k`. */
  function LastWritten(steps: seq<Step>, i: nat, k: nat): Bytes
    requires k <= |steps|
  {
    if k == 0 then []
    else if IsOpOf(steps[k - 1], i) then Leaves(steps[k - 1].op, LastWritten(steps, i, k - 1))
    else LastWritten(steps, i, k - 1)
  }

  /** The connection for which sender `i` last got a buffer, before step `k`. */
  function LastTarget(steps: seq<Step>, i: nat, k: nat): nat
    requires k <= |steps|
  {
    if k == 0 then 0
    else if IsOpOf(steps[k - 1], i) && Gets(steps[k - 1].op) then steps[k - 1].op.c
    else LastTarget(steps, i, k - 1)
  }

  predicate HoldsBuffer(x: Sender)
  {
    x.Filling? || x.Moved? || x.Marshalled? || x.Ready?
  }

  ghost predicate Mine(x: Sender, heap: map<nat, Bytes>, written: Bytes, c: nat)
  {
    HoldsBuffer(x) ==> At(heap, x.buf) == written && x.c == c
  }

  lemma {:induction false} SumOfTwo<T(!new)>(weight: T -> int, s: seq<T>, i: nat, j: nat)
    requires forall x :: weight(x) >= 0
    requires i < |s| && j < |s| && i != j
    ensures Sum(weight, s) >= weight(s[i]) + weight(s[j])
  {
    var n := |s| - 1;
    SumBounds(weight, s[..n]);
    if i < n && j < n {
      SumOfTwo(weight, s[..n], i, j);
    } else if i < n {
      assert weight(s[..n][i]) <= Sum(weight, s[..n]);
    } else {
      assert weight(s[..n][j]) <= Sum(weight, s[..n]);
    }
  }

  /** Nobody else's write, and no allocation, hits a buffer that a sender holds. */
  lemma WritesMissOthers(s: State, i: nat, j: nat, op: SenderOp)
    requires Linear(s) && Enabled(s, Send(j, op)) && Writes(op) && i < |s.senders| && i != j
    requires HoldsBuffer(s.senders[i])
    ensures Target(s.senders[j], op, s.next) != s.senders[i].buf
  {
    var buf := s.senders[i].buf;
    RefsNonNegative(buf);
    SumBounds(SenderRefs(buf), s.senders);
    SumBounds(ChannelRefs(buf), s.channels);
    SumOfTwo(SenderRefs(buf), s.senders, i, j);
    assert Places(s, buf) == One(buf < s.next);
    assert SenderRefs(buf)(s.senders[i]) >= 1;
  }

  lemma OwnKeepsMine(x: Sender, op: SenderOp, next: nat, heap: map<nat, Bytes>, written: Bytes, c: nat)
    requires SenderEnabled(x, op) && Mine(x, heap, written, c)
    ensures Mine(SenderNext(x, op, next), if Writes(op) then heap[Target(x, op, next) := op.data] else heap,
                 Leaves(op, written), if Gets(op) then op.c else c)
  {
  }

  lemma OtherKeepsMine(s: State, st: Step, i: nat, written: Bytes, c: nat)
    requires Linear(s) && Enabled(s, st) && st.Send? && st.i != i
    requires i < |s.senders| && Mine(s.senders[i], s.heap, written, c)
    ensures var t := ApplySend(s, st.i, st.op);
            i < |t.senders| && Mine(t.senders[i], t.heap, written, c)
  {
    var t := ApplySend(s, st.i, st.op);
    assert t.senders[i] == s.senders[i];
    if Writes(st.op) && HoldsBuffer(s.senders[i]) {
      WritesMissOthers(s, i, st.i, st.op);
    }
  }

  lemma KeepsMine(s: State, st: Step, i: nat, written: Bytes, c: nat)
    requires Linear(s) && Enabled(s, st)
    requires i < |s.senders| && Mine(s.senders[i], s.heap, written, c)
    ensures var t := Apply(s, st);
            && i < |t.senders|
            && Mine(t.senders[i], t.heap, if IsOpOf(st, i) then Leaves(st.op, written) else written,
                    if IsOpOf(st, i) && Gets(st.op) then st.op.c else c)
  {
    if IsOpOf(st, i) {
      OwnKeepsMine(s.senders[i], st.op, s.next, s.heap, written, c);
    } else if st.Send? {
      OtherKeepsMine(s, st, i, written, c);
    }
  }

  lemma {:induction false} SendersKeep(states: seq<State>, steps: seq<Step>, k: nat, i: nat)
    requires IsRun(states, steps) && k < |states| && i < |states[k].senders|
    ensures Mine(states[k].senders[i], states[k].heap, LastWritten(steps, i, k), LastTarget(steps, i, k))
  {
    StepAt(states, steps, k - 1);
    if i < |states[k - 1].senders| {
      SendersKeep(states, steps, k - 1, i);
      OwnedExactlyOnce(states, steps, k - 1);
      KeepsMine(states[k - 1], steps[k - 1], i, LastWritten(steps, i, k - 1), LastTarget(steps, i, k - 1));
    }
  }

  /**
   When a frame is accepted, it is what its sender wrote last, in the queue of the connection for which that sender
   last got a buffer; no other connection accepts anything in that step.
   */
  lemma AcceptedIsWritten(states: seq<State>, steps: seq<Step>, k: nat)
    requires IsRun(states, steps) && k < |steps| && steps[k].Send? && steps[k].op.Enqueue?
    ensures var i, s, t := steps[k].i, states[k], states[k + 1];
            var c := LastTarget(steps, i, k);
            && c < |s.channels| == |t.channels|
            && t.channels[c].accepted == s.channels[c].accepted + [LastWritten(steps, i, k)]
            && forall d :: 0 <= d < |s.channels| && d != c ==> t.channels[d] == s.channels[d]
  {
    StepAt(states, steps, k);
    SendersKeep(states, steps, k, steps[k].i);
  }

  /** Nothing else is ever accepted. */
  lemma AcceptedOnlyThen(states: seq<State>, steps: seq<Step>, k: nat, c: nat)
    requires IsRun(states, steps) && k < |steps| && c < |states[k].channels|
    requires !(steps[k].Send? && steps[k].op.Enqueue?)
    ensures c < |states[k + 1].channels| && states[k + 1].channels[c].accepted == states[k].channels[c].accepted
  {
    StepAt(states, steps, k);
  }

  // ---- order of a sender's steps ------------------------------------------------------

  /**
   What may follow what in one sending goroutine; `moved`: marshalling returned another array; `ok`: it succeeded.
   What failed to marshal, or does not fit, is put back and never queued.
   */
  predicate SenderFollows(a: SenderOp, b: SenderOp, moved: bool, ok: bool)
  {
    match a
    case GetPooled(_, _, _) => b.FillRaw? || b.MarshalInPlace? || b.MarshalMoves? || b.MarshalFailsNil?
    case GetFresh(_, _) => b.FillRaw? || b.MarshalInPlace? || b.MarshalMoves? || b.MarshalFailsNil?
    case FillRaw(_) => b.Seal? || b.Enqueue? || b.Refuse?
    case MarshalInPlace(_, _) => b.Judge?
    case MarshalMoves(_, _) => b.PutPrefix?
    case MarshalFailsNil => b.PutPrefix?
    case PutPrefix => if moved then b.Judge? else Gets(b)
    case Judge(fits) => if ok && fits then b.Seal? || b.Enqueue? || b.Refuse? else b.PutRejected?
    case Seal(_) => b.Seal? || b.Enqueue? || b.Refuse?
    case Enqueue => Gets(b)
    case Refuse => b.PutRejected?
    case PutRejected => Gets(b)
  }

  lemma FollowsFrom(x: Sender, a: SenderOp, next: nat, b: SenderOp)
    requires SenderEnabled(x, a) && SenderEnabled(SenderNext(x, a, next), b)
    ensures SenderFollows(a, b, x.Moved?, x.Marshalled? && x.ok)
  {
  }

  lemma {:induction false} SenderStays(states: seq<State>, steps: seq<Step>, i: nat, j: nat, k: nat)
    requires IsRun(states, steps) && j <= k < |states| && i < |states[j].senders|
    requires forall l :: j <= l < k ==> !IsOpOf(steps[l], i)
    ensures i < |states[k].senders| && states[k].senders[i] == states[j].senders[i]
    decreases k
  {
    if j < k {
      SenderStays(states, steps, i, j, k - 1);
      StepAt(states, steps, k - 1);
    }
  }

  lemma OpLeads(states: seq<State>, steps: seq<Step>, i: nat, k: nat)
    requires IsRun(states, steps) && k < |steps| && IsOpOf(steps[k], i)
    ensures i < |states[k].senders| && SenderEnabled(states[k].senders[i], steps[k].op)
    ensures i < |states[k + 1].senders|
    ensures states[k + 1].senders[i] == SenderNext(states[k].senders[i], steps[k].op, states[k].next)
  {
    StepAt(states, steps, k);
  }

  /** Between one step of a sending goroutine and its next one it skips nothing. */
  lemma SenderInOrder(states: seq<State>, steps: seq<Step>, i: nat, j: nat, k: nat)
    requires IsRun(states, steps) && j < k < |steps| && IsOpOf(steps[j], i) && IsOpOf(steps[k], i)
    requires forall l :: j < l < k ==> !IsOpOf(steps[l], i)
    ensures i < |states[j].senders|
    ensures var x := states[j].senders[i];
            SenderFollows(steps[j].op, steps[k].op, x.Moved?, x.Marshalled? && x.ok)
  {
    OpLeads(states, steps, i, j);
    SenderStays(states, steps, i, j + 1, k);
    OpLeads(states, steps, i, k);
    FollowsFrom(states[j].senders[i], steps[j].op, states[j].next, steps[k].op);
  }

  /** Whether marshalling succeeded is remembered until the frame is judged. */
  lemma MarshalRemembered(states: seq<State>, steps: seq<Step>, k: nat)
    requires IsRun(states, steps) && k < |steps| && steps[k].Send?
    ensures var i, op := steps[k].i, steps[k].op;
            && i < |states[k].senders| && i < |states[k + 1].senders|
            && var x, y := states[k].senders[i], states[k + 1].senders[i];
               && (op.MarshalInPlace? ==> y.Marshalled? && y.ok == op.ok)
               && (op.MarshalMoves? ==> y.Moved? && y.ok == op.ok)
               && (op.PutPrefix? && x.Moved? ==> y.Marshalled? && y.ok == x.ok)
  {
    StepAt(states, steps, k);
  }

  // ---- nobody stops half way ----------------------------------------------------------

  /** A sender at work can go on, towards its queue as soon as that exists. */
  lemma SenderGoesOn(s: State, i: nat) returns (op: SenderOp)
    requires i < |s.senders|
    requires s.senders[i].Ready? ==> s.senders[i].c < |s.channels|
    ensures Enabled(s, Send(i, op))
    ensures s.senders[i].Ready? ==> op.Enqueue?
  {
    var x := s.senders[i];
    match x
    case Idle => op := GetFresh(0, []);
    case Filling(_, _) => op := MarshalInPlace([], true);
    case Moved(_, _, _, _) => op := PutPrefix;
    case MovedToNil(_) => op := PutPrefix;
    case Marshalled(_, _, _) => op := Judge(true);
    case Ready(_, _) => op := Enqueue;
    case Rejected(_) => op := PutRejected;
  }

  /** A writer at work, or with something queued, can go on. */
  lemma WriterGoesOn(s: State, c: nat) returns (st: Step)
    requires c < |s.channels| && (s.channels[c].writer.Waiting? ==> s.channels[c].queue != [])
    ensures Enabled(s, st) && st == if s.channels[c].writer.Waiting? then Take(c)
                                    else if s.channels[c].writer.Holding? then Consume(c) else PutTaken(c)
  {
    st := if s.channels[c].writer.Waiting? then Take(c)
          else if s.channels[c].writer.Holding? then Consume(c) else PutTaken(c);
  }

  /** A buffer in the pool can be reused, for any connection, or be collected, and then it is in the pool no longer. */
  lemma PooledIsReusable(s: State, i: nat, c: nat, buf: nat, data: Bytes)
    requires i < |s.senders| && s.senders[i].Idle? && buf in s.pool
    ensures Enabled(s, Send(i, GetPooled(c, buf, data))) && Enabled(s, CollectGarbage(buf))
    ensures var t := Apply(s, CollectGarbage(buf));
            t.pool[buf] == s.pool[buf] - 1 && t.collected[buf] == s.collected[buf] + 1 && t.senders == s.senders
  {
  }

  /** Every outcome is possible: of marshalling, of the checks, of queueing. */
  lemma MayTurnOut(s: State, i: nat, data: Bytes, ok: bool)
    requires i < |s.senders|
    ensures s.senders[i].Filling? ==>
              && Enabled(s, Send(i, FillRaw(data))) && Enabled(s, Send(i, MarshalInPlace(data, ok)))
              && Enabled(s, Send(i, MarshalMoves(data, ok))) && Enabled(s, Send(i, MarshalFailsNil))
    ensures s.senders[i].Marshalled? ==> Enabled(s, Send(i, Judge(ok)))
    ensures s.senders[i].Ready? ==> Enabled(s, Send(i, Seal(data))) && Enabled(s, Send(i, Refuse))
  {
  }

  /** New senders and new connections may come at any moment. */
  lemma MayCome(s: State)
    ensures Enabled(s, Spawn) && Enabled(s, Open)
    ensures |Apply(s, Spawn).senders| == |s.senders| + 1 && Apply(s, Spawn).senders[|s.senders|].Idle?
    ensures |Apply(s, Open).channels| == |s.channels| + 1
    ensures Apply(s, Spawn).channels == s.channels && Apply(s, Open).senders == s.senders
  {
  }
}
