/**
 Ownership of frame buffers (connection.go): sending goroutines take a buffer from the shared pool, fill it, and hand
 it to a connection's queue or put it back; the writer or the discard loop of the connection puts it back in the end.
 Buffers are numbered, their bytes live in `heap`, and the pool counts how often it holds each of them, so that
 putting one back twice can be told apart. Whether a check passes, a context is cancelled or a queue is
 full is left open here: every outcome is a step.
 */
module Buffers {
  import opened Sums
  import Utf8

  type Bytes = seq<Utf8.byte>

  /** A sending goroutine for connection `c`. */
  datatype Sender =
    | Idle
    | Filling(c: nat, buf: nat)                        // header, method and id appended
    | Moved(c: nat, prefix: nat, buf: nat, ok: bool)   // marshalAppend returned another array
    | MovedToNil(prefix: nat)                          // marshalAppend failed with a nil slice
    | Marshalled(c: nat, buf: nat, ok: bool)
    | Ready(c: nat, buf: nat)
    | Rejected(buf: nat)                               // will be put back

  datatype Writer = Waiting | Holding(buf: nat) | Releasing(buf: nat)

  /** The queue of one connection with its consumer; `taken` are the bytes the socket or the discard loop saw. */
  datatype Channel = Channel(queue: seq<nat>, writer: Writer, accepted: seq<Bytes>, taken: seq<Bytes>)

  datatype State = State(
    next: nat,                // buffers below it have been allocated
    heap: map<nat, Bytes>,
    pool: multiset<nat>,
    collected: multiset<nat>, // taken from the pool by the garbage collector
    senders: seq<Sender>,
    channels: seq<Channel>)

  /** Steps of a sending goroutine; `data` is what the buffer it writes to holds afterwards. */
  datatype SenderOp =
    | GetPooled(c: nat, buf: nat, data: Bytes)
    | GetFresh(c: nat, data: Bytes)
    | FillRaw(data: Bytes)
    | MarshalInPlace(data: Bytes, ok: bool)
    | MarshalMoves(data: Bytes, ok: bool)
    | MarshalFailsNil
    | PutPrefix
    | Judge(fits: bool)
    | Seal(data: Bytes)
    | Enqueue
    | Refuse
    | PutRejected

  datatype Step =
    | Spawn
    | Open
    | Send(i: nat, op: SenderOp)
    | Take(c: nat)
    | Consume(c: nat)
    | PutTaken(c: nat)
    | CollectGarbage(buf: nat)

  const INITIAL := State(0, map[], multiset{}, multiset{}, [], [])

  function At(heap: map<nat, Bytes>, buf: nat): Bytes
  {
    if buf in heap then heap[buf] else []
  }

  predicate SenderEnabled(x: Sender, op: SenderOp)
  {
    match op
    case GetPooled(_, _, _) => x.Idle?
    case GetFresh(_, _) => x.Idle?
    case FillRaw(_) => x.Filling?
    case MarshalInPlace(_, _) => x.Filling?
    case MarshalMoves(_, _) => x.Filling?
    case MarshalFailsNil => x.Filling?
    case PutPrefix => x.Moved? || x.MovedToNil?
    case Judge(_) => x.Marshalled?
    case Seal(_) => x.Ready?
    case Enqueue => x.Ready?
    case Refuse => x.Ready?
    case PutRejected => x.Rejected?
  }

  function SenderNext(x: Sender, op: SenderOp, next: nat): Sender
    requires SenderEnabled(x, op)
  {
    match op
    case GetPooled(c, buf, _) => Filling(c, buf)
    case GetFresh(c, _) => Filling(c, next)
    case FillRaw(_) => Ready(x.c, x.buf)
    case MarshalInPlace(_, ok) => Marshalled(x.c, x.buf, ok)
    case MarshalMoves(_, ok) => Moved(x.c, x.buf, next, ok)
    case MarshalFailsNil => MovedToNil(x.buf)
    case PutPrefix => if x.Moved? then Marshalled(x.c, x.buf, x.ok) else Idle
    case Judge(fits) => if x.ok && fits then Ready(x.c, x.buf) else Rejected(x.buf)
    case Seal(_) => x
    case Enqueue => Idle
    case Refuse => Rejected(x.buf)
    case PutRejected => Idle
  }

  /** The buffer whose bytes the step writes; `next` is the array it would allocate. */
  function Target(x: Sender, op: SenderOp, next: nat): nat
    requires SenderEnabled(x, op)
  {
    match op
    case GetPooled(_, buf, _) => buf
    case FillRaw(_) => x.buf
    case MarshalInPlace(_, _) => x.buf
    case Seal(_) => x.buf
    case _ => next
  }

  predicate Writes(op: SenderOp)
  {
    op.GetPooled? || op.GetFresh? || op.FillRaw? || op.MarshalInPlace? || op.MarshalMoves? || op.Seal?
  }

  predicate Allocates(op: SenderOp)
  {
    op.GetFresh? || op.MarshalMoves?
  }

  /** What the step takes out of the pool, and what it puts back. */
  function Got(op: SenderOp): multiset<nat>
  {
    if op.GetPooled? then multiset{op.buf} else multiset{}
  }

  function Put(x: Sender, op: SenderOp): multiset<nat>
    requires SenderEnabled(x, op)
  {
    match op
    case PutPrefix => multiset{x.prefix}
    case PutRejected => multiset{x.buf}
    case _ => multiset{}
  }

  predicate Enabled(s: State, st: Step)
  {
    match st
    case Spawn => true
    case Open => true
    case Send(i, op) =>
      && i < |s.senders| && SenderEnabled(s.senders[i], op)
      && (op.GetPooled? ==> op.buf in s.pool)
      && (op.Enqueue? ==> s.senders[i].c < |s.channels|)
    case Take(c) => c < |s.channels| && s.channels[c].writer.Waiting? && s.channels[c].queue != []
    case Consume(c) => c < |s.channels| && s.channels[c].writer.Holding?
    case PutTaken(c) => c < |s.channels| && s.channels[c].writer.Releasing?
    case CollectGarbage(buf) => buf in s.pool
  }

  function Accepting(ch: Channel, buf: nat, heap: map<nat, Bytes>): Channel
  {
    ch.(queue := ch.queue + [buf], accepted := ch.accepted + [At(heap, buf)])
  }

  function ApplySend(s: State, i: nat, op: SenderOp): State
    requires Enabled(s, Send(i, op))
  {
    var x := s.senders[i];
    State(if Allocates(op) then s.next + 1 else s.next,
          if Writes(op) then s.heap[Target(x, op, s.next) := op.data] else s.heap,
          s.pool - Got(op) + Put(x, op),
          s.collected,
          s.senders[i := SenderNext(x, op, s.next)],
          if op.Enqueue? then s.channels[x.c := Accepting(s.channels[x.c], x.buf, s.heap)] else s.channels)
  }

  function Apply(s: State, st: Step): State
    requires Enabled(s, st)
  {
    match st
    case Spawn => s.(senders := s.senders + [Idle])
    case Open => s.(channels := s.channels + [Channel([], Waiting, [], [])])
    case Send(i, op) => ApplySend(s, i, op)
    case Take(c) =>
      var ch := s.channels[c];
      s.(channels := s.channels[c := ch.(queue := ch.queue[1..], writer := Holding(ch.queue[0]))])
    case Consume(c) =>
      var ch := s.channels[c];
      var consumed := ch.(writer := Releasing(ch.writer.buf), taken := ch.taken + [At(s.heap, ch.writer.buf)]);
      s.(channels := s.channels[c := consumed])
    case PutTaken(c) =>
      var ch := s.channels[c];
      s.(pool := s.pool + multiset{ch.writer.buf}, channels := s.channels[c := ch.(writer := Waiting)])
    case CollectGarbage(buf) => s.(pool := s.pool - multiset{buf}, collected := s.collected + multiset{buf})
  }

  ghost predicate IsRun(states: seq<State>, steps: seq<Step>)
  {
    && |states| == |steps| + 1 && states[0] == INITIAL
    && forall k {:trigger steps[k]} :: 0 <= k < |steps| ==>
          Enabled(states[k], steps[k]) && states[k + 1] == Apply(states[k], steps[k])
  }

  // ---- one owner each -----------------------------------------------------------------

  function Is(buf: nat): nat -> int
  {
    (b: nat) => One(b == buf)
  }

  /** How many references of a sender are to `buf`. */
  function SenderRefs(buf: nat): Sender -> int
  {
    (x: Sender) =>
      One((x.Moved? || x.MovedToNil?) && x.prefix == buf) + One(!x.Idle? && !x.MovedToNil? && x.buf == buf)
  }

  function WriterRefs(w: Writer, buf: nat): int
  {
    One(!w.Waiting? && w.buf == buf)
  }

  function ChannelRefs(buf: nat): Channel -> int
  {
    (ch: Channel) => Sum(Is(buf), ch.queue) + WriterRefs(ch.writer, buf)
  }

  /** In how many places `buf` is: with a sender, in a queue, with a writer, in the pool, or collected. */
  ghost function Places(s: State, buf: nat): int
  {
    Sum(SenderRefs(buf), s.senders) + Sum(ChannelRefs(buf), s.channels) + s.pool[buf] + s.collected[buf]
  }

  ghost predicate Linear(s: State)
  {
    forall buf: nat :: Places(s, buf) == One(buf < s.next)
  }

  /** What one step of a sender takes in and gives away balances what it holds. */
  lemma SenderBalance(x: Sender, op: SenderOp, next: nat, buf: nat)
    requires SenderEnabled(x, op)
    ensures SenderRefs(buf)(SenderNext(x, op, next)) ==
            SenderRefs(buf)(x) + Got(op)[buf] + One(Allocates(op) && buf == next) - Put(x, op)[buf]
            - One(op.Enqueue? && x.buf == buf)
  {
  }

  lemma PoolBalance(pool: multiset<nat>, got: multiset<nat>, put: multiset<nat>, buf: nat)
    requires got <= pool
    ensures (pool - got + put)[buf] == pool[buf] - got[buf] + put[buf]
  {
  }

  lemma AcceptBalance(channels: seq<Channel>, c: nat, accepted: nat, heap: map<nat, Bytes>, buf: nat)
    requires c < |channels|
    ensures Sum(ChannelRefs(buf), channels[c := Accepting(channels[c], accepted, heap)])
            == Sum(ChannelRefs(buf), channels) + One(accepted == buf)
  {
    SumAppend(Is(buf), channels[c].queue, accepted);
    SumUpdate(ChannelRefs(buf), channels, c, Accepting(channels[c], accepted, heap));
  }

  lemma SendKeepsPlaces(s: State, i: nat, op: SenderOp, buf: nat)
    requires Enabled(s, Send(i, op)) && Places(s, buf) == One(buf < s.next)
    ensures Places(ApplySend(s, i, op), buf) == One(buf < ApplySend(s, i, op).next)
  {
    var x, t := s.senders[i], ApplySend(s, i, op);
    SenderBalance(x, op, s.next, buf);
    SumUpdate(SenderRefs(buf), s.senders, i, SenderNext(x, op, s.next));
    assert t.pool[buf] == s.pool[buf] - Got(op)[buf] + Put(x, op)[buf] by {
      PoolBalance(s.pool, Got(op), Put(x, op), buf);
    }
    if op.Enqueue? {
      AcceptBalance(s.channels, x.c, x.buf, s.heap, buf);
    }
    assert Sum(ChannelRefs(buf), t.channels) == Sum(ChannelRefs(buf), s.channels) + One(op.Enqueue? && x.buf == buf);
  }

  /** The three steps of a writer: what a channel holds changes only when the buffer is put back. */
  lemma WriterBalance(s: State, st: Step, buf: nat)
    requires Enabled(s, st) && (st.Take? || st.Consume? || st.PutTaken?)
    ensures Sum(ChannelRefs(buf), Apply(s, st).channels)
            == Sum(ChannelRefs(buf), s.channels) - One(st.PutTaken? && s.channels[st.c].writer.buf == buf)
  {
    var ch := s.channels[st.c];
    if st.Take? {
      SumTail(Is(buf), ch.queue);
    }
    SumUpdate(ChannelRefs(buf), s.channels, st.c, Apply(s, st).channels[st.c]);
  }

  lemma KeepsPlaces(s: State, st: Step, buf: nat)
    requires Enabled(s, st) && Places(s, buf) == One(buf < s.next)
    ensures Places(Apply(s, st), buf) == One(buf < Apply(s, st).next)
  {
    match st
    case Spawn => SumAppend(SenderRefs(buf), s.senders, Idle);
    case Open => SumAppend(ChannelRefs(buf), s.channels, Channel([], Waiting, [], []));
    case Send(i, op) => SendKeepsPlaces(s, i, op, buf);
    case CollectGarbage(_) =>
    case _ => WriterBalance(s, st, buf);
  }

  /**
   Linear ownership: at every moment each allocated buffer is in exactly one place, and the pool never holds one twice.
   */
  lemma {:induction false} OwnedExactlyOnce(states: seq<State>, steps: seq<Step>, k: nat)
    requires IsRun(states, steps) && k < |states|
    ensures Linear(states[k])
  {
    if k > 0 {
      OwnedExactlyOnce(states, steps, k - 1);
      forall buf: nat ensures Places(states[k], buf) == One(buf < states[k].next) {
        KeepsPlaces(states[k - 1], steps[k - 1], buf);
      }
    }
  }

  // ---- what is written is what was accepted -------------------------------------------

  /** The buffers that were accepted and not yet consumed, oldest first. */
  function Pending(ch: Channel): seq<nat>
  {
    (if ch.writer.Holding? then [ch.writer.buf] else []) + ch.queue
  }

  /** The bytes consumed so far are a prefix of the bytes accepted, and the rest is still in the pending buffers. */
  ghost predicate Intact(heap: map<nat, Bytes>, ch: Channel)
  {
    var pending := Pending(ch);
    && |ch.accepted| == |ch.taken| + |pending|
    && ch.taken <= ch.accepted
    && forall i :: 0 <= i < |pending| ==> ch.accepted[|ch.taken| + i] == At(heap, pending[i])
  }

  ghost predicate AllIntact(s: State)
  {
    forall c :: 0 <= c < |s.channels| ==> Intact(s.heap, s.channels[c])
  }

  lemma RefsNonNegative(buf: nat)
    ensures forall x :: SenderRefs(buf)(x) >= 0
    ensures forall ch :: ChannelRefs(buf)(ch) >= 0
  {
    forall ch ensures ChannelRefs(buf)(ch) >= 0 {
      assert forall b: nat :: Is(buf)(b) == One(b == buf);
      SumBounds(Is(buf), ch.queue);
    }
  }

  lemma UnreferencedIsNotPending(ch: Channel, buf: nat)
    requires ChannelRefs(buf)(ch) == 0
    ensures buf !in Pending(ch)
  {
    assert forall b: nat :: Is(buf)(b) == One(b == buf);
    SumBounds(Is(buf), ch.queue);
    forall i | 0 <= i < |ch.queue| ensures ch.queue[i] != buf {
      assert Is(buf)(ch.queue[i]) <= 0;
    }
  }

  /** A buffer that a goroutine holds, takes from the pool or allocates is in no queue and with no writer. */
  lemma TargetIsExclusive(s: State, i: nat, op: SenderOp, c: nat)
    requires Linear(s) && Enabled(s, Send(i, op)) && Writes(op) && c < |s.channels|
    ensures Target(s.senders[i], op, s.next) !in Pending(s.channels[c])
  {
    var buf := Target(s.senders[i], op, s.next);
    RefsNonNegative(buf);
    SumBounds(SenderRefs(buf), s.senders);
    SumBounds(ChannelRefs(buf), s.channels);
    assert Places(s, buf) == One(buf < s.next);
    assert SenderRefs(buf)(s.senders[i]) <= Sum(SenderRefs(buf), s.senders);
    assert ChannelRefs(buf)(s.channels[c]) <= Sum(ChannelRefs(buf), s.channels);
    UnreferencedIsNotPending(s.channels[c], buf);
  }

  lemma SendKeepsIntact(s: State, i: nat, op: SenderOp)
    requires Linear(s) && AllIntact(s) && Enabled(s, Send(i, op))
    ensures AllIntact(ApplySend(s, i, op))
  {
    var t := ApplySend(s, i, op);
    forall c | 0 <= c < |t.channels| ensures Intact(t.heap, t.channels[c]) {
      assert Intact(s.heap, s.channels[c]);
      if Writes(op) {
        TargetIsExclusive(s, i, op, c);
      } else if op.Enqueue? && c == s.senders[i].c {
        assert Pending(t.channels[c]) == Pending(s.channels[c]) + [s.senders[i].buf];
      }
    }
  }

  lemma TakeKeepsIntact(heap: map<nat, Bytes>, ch: Channel)
    requires Intact(heap, ch) && ch.writer.Waiting? && ch.queue != []
    ensures Intact(heap, ch.(queue := ch.queue[1..], writer := Holding(ch.queue[0])))
  {
    assert Pending(ch.(queue := ch.queue[1..], writer := Holding(ch.queue[0]))) == Pending(ch);
  }

  lemma ConsumeKeepsIntact(heap: map<nat, Bytes>, ch: Channel)
    requires Intact(heap, ch) && ch.writer.Holding?
    ensures Intact(heap, ch.(writer := Releasing(ch.writer.buf), taken := ch.taken + [At(heap, ch.writer.buf)]))
  {
    var after := ch.(writer := Releasing(ch.writer.buf), taken := ch.taken + [At(heap, ch.writer.buf)]);
    assert Pending(ch) == [ch.writer.buf] + Pending(after);
    assert ch.accepted[|ch.taken|] == At(heap, Pending(ch)[0]);
    forall i | 0 <= i < |Pending(after)| ensures after.accepted[|after.taken| + i] == At(heap, Pending(after)[i]) {
      assert ch.accepted[|ch.taken| + (i + 1)] == At(heap, Pending(ch)[i + 1]);
    }
  }

  lemma KeepsIntact(s: State, st: Step)
    requires Linear(s) && AllIntact(s) && Enabled(s, st)
    ensures AllIntact(Apply(s, st))
  {
    match st
    case Send(i, op) => SendKeepsIntact(s, i, op);
    case Take(c) => TakeKeepsIntact(s.heap, s.channels[c]);
    case Consume(c) => ConsumeKeepsIntact(s.heap, s.channels[c]);
    case PutTaken(c) => assert Pending(Apply(s, st).channels[c]) == Pending(s.channels[c]);
    case _ =>
  }

  /**
   Although buffers are reused across all connections, what the writer or the discard loop of a connection sees is,
   byte for byte and in order, what was accepted into its queue.
   */
  lemma {:induction false} ConsumedIsAccepted(states: seq<State>, steps: seq<Step>, k: nat)
    requires IsRun(states, steps) && k < |states|
    ensures AllIntact(states[k])
    ensures forall c :: 0 <= c < |states[k].channels| ==> states[k].channels[c].taken <= states[k].channels[c].accepted
  {
    if k > 0 {
      ConsumedIsAccepted(states, steps, k - 1);
      OwnedExactlyOnce(states, steps, k - 1);
      KeepsIntact(states[k - 1], steps[k - 1]);
    }
    assert forall c :: 0 <= c < |states[k].channels| ==> Intact(states[k].heap, states[k].channels[c]);
  }

  /**
   Returned exactly once on every path: when no goroutine is at work, every buffer ever allocated is back in the pool,
   once, or was collected from it.
   */
  lemma NoLeak(states: seq<State>, steps: seq<Step>, k: nat, buf: nat)
    requires IsRun(states, steps) && k < |states|
    requires forall i :: 0 <= i < |states[k].senders| ==> states[k].senders[i].Idle?
    requires forall c :: 0 <= c < |states[k].channels| ==>
              states[k].channels[c].queue == [] && states[k].channels[c].writer.Waiting?
    ensures states[k].pool[buf] + states[k].collected[buf] == One(buf < states[k].next)
  {
    OwnedExactlyOnce(states, steps, k);
    SumOfSame(SenderRefs(buf), states[k].senders, 0);
    SumOfSame(ChannelRefs(buf), states[k].channels, 0);
    assert Places(states[k], buf) == One(buf < states[k].next);
  }
}
