/** What holds in every run of the handler of module Server. */
module ServerRuns {
  import opened Sums
  import opened Operations
  import opened Server
  import C = ConnectionRuns

  // ---- the invariant, part by part ----------------------------------------------------

  ghost predicate ConnsInv(conns: seq<C.Conn>)
  {
    forall c :: 0 <= c < |conns| ==> C.Inv(conns[c])
  }

  predicate InAdmission(phase: Phase)
  {
    phase == Counted || phase == Added || phase == Tallied
  }

  predicate SnapshotTaken(d: Shutdown)
  {
    !d.NotCalled? && !d.HeartbeatTold?
  }

  /** `admissionMu`: who holds it, and that shutdown and admissions exclude each other. */
  ghost predicate LockInv(recs: seq<Rec>, lock: Lock, shuttingDown: bool, shutdown: Shutdown)
  {
    && (shuttingDown <==> SnapshotTaken(shutdown))
    && (lock == HeldByShutdown <==> shutdown.Draining?)
    && (shuttingDown ==> !lock.HeldBy?)
    && (lock.HeldBy? ==> lock.c < |recs|)
    && (forall c :: 0 <= c < |recs| ==> (InAdmission(recs[c].phase) <==> lock == HeldBy(c)))
    && (forall c :: 0 <= c < |recs| && recs[c].registered ==>
          recs[c].phase == Added || recs[c].phase == Tallied || recs[c].phase == Serving)
  }

  /**
   No lost wake-up: a loop asleep without a pending token has missed only connections still on their way to waking it.
   */
  ghost predicate WakeInv(recs: seq<Rec>, enabled: bool, wake: bool, heartbeat: Heartbeat)
  {
    && (!enabled ==> heartbeat.Stopped?)
    && (heartbeat.Asleep? && !wake ==>
          forall c :: 0 <= c < |recs| && recs[c].registered ==> recs[c].phase == Added || recs[c].phase == Tallied)
  }

  /** Outside Serving no handler runs, and a goroutine past closing has cancelled its context. */
  ghost predicate ServeInv(recs: seq<Rec>, conns: seq<C.Conn>)
  {
    && |recs| == |conns|
    && (forall c :: 0 <= c < |recs| && recs[c].phase != Serving ==> conns[c].running == {})
    && (forall c :: 0 <= c < |recs| && (recs[c].phase == Closed || recs[c].phase == Finished) ==> conns[c].cancelled)
  }

  function ActiveWeight(r: Rec): int
  {
    if r.phase == Created || r.phase == TurnedAway || r.phase == Finished then 0 else 1
  }

  /** Registered, less an admission not yet counted, plus a removal not yet subtracted. */
  function OnlineWeight(r: Rec): int
  {
    (if r.registered then 1 else 0) - (if r.phase == Added then 1 else 0) + (if r.phase == Subtracting then 1 else 0)
  }

  /** Evicted by the sweep under way and not yet subtracted. */
  function Pending(h: Heartbeat): seq<nat>
  {
    if h.Sweeping? then h.evicted else []
  }

  ghost predicate SumsInv(recs: seq<Rec>, active: int, online: int, pending: seq<nat>)
  {
    && active == Sum(ActiveWeight, recs)
    && online == Sum(OnlineWeight, recs) + |pending|
  }

  predicate EverAdded(phase: Phase)
  {
    phase != Created && phase != TurnedAway && phase != Counted
  }

  function Held(r: Rec): nat
  {
    (if r.registered then 1 else 0) + (if r.phase == Subtracting then 1 else 0)
  }

  /**
   Each connection ever added is registered, about to be subtracted, or subtracted: exactly one of these, and once.
   */
  ghost predicate OnceAt(r: Rec, pending: seq<nat>, subtracted: multiset<nat>, c: nat)
  {
    Held(r) + multiset(pending)[c] + subtracted[c] == if EverAdded(r.phase) then 1 else 0
  }

  ghost predicate OnceInv(recs: seq<Rec>, subtracted: multiset<nat>, pending: seq<nat>)
  {
    && (forall c :: 0 <= c < |recs| ==> OnceAt(recs[c], pending, subtracted, c))
    && (forall c :: c in subtracted ==> c < |recs|)
    && (forall c :: c in pending ==> c < |recs|)
  }

  ghost predicate DrainedAt(conns: seq<C.Conn>, c: nat)
  {
    c < |conns| && Drained(conns[c].ops)
  }

  ghost predicate DrainingAt(conns: seq<C.Conn>, c: nat)
  {
    c < |conns| && conns[c].ops.draining
  }

  ghost predicate CancelledAt(conns: seq<C.Conn>, c: nat)
  {
    c < |conns| && conns[c].cancelled
  }

  ghost predicate WaitsOn(conns: seq<C.Conn>, c: nat, channel: nat)
  {
    c < |conns| && conns[c].ops.draining && conns[c].ops.done == channel
  }

  predicate WaitedOut(d: Shutdown)
  {
    (d.Closing? && d.ok) || d.AwaitingHandlers? || (d.Returned? && d.ok)
  }

  /** What the shutdown goroutine knows of the connections it drains. */
  ghost predicate DrainInv(conns: seq<C.Conn>, d: Shutdown)
  {
    && (d.Draining? || d.Waiting? ==>
          && |d.channels| <= |d.list|
          && (d.Waiting? ==> |d.channels| == |d.list|)
          && forall i :: 0 <= i < |d.channels| ==> WaitsOn(conns, d.list[i], d.channels[i]))
    && (d.Waiting? ==> d.next <= |d.list| && forall i :: 0 <= i < d.next ==> DrainedAt(conns, d.list[i]))
    && (d.Closing? || d.AwaitingHandlers? || d.Returned? ==>
          forall i :: 0 <= i < |d.list| ==> DrainingAt(conns, d.list[i]))
    && (WaitedOut(d) ==> forall i :: 0 <= i < |d.list| ==> DrainedAt(conns, d.list[i]))
    && (d.Closing? ==> d.next <= |d.list| && forall i :: 0 <= i < d.next ==> CancelledAt(conns, d.list[i]))
    && (d.AwaitingHandlers? || d.Returned? ==> forall i :: 0 <= i < |d.list| ==> CancelledAt(conns, d.list[i]))
  }

  /** The snapshot keeps covering every registered connection, and a nil return means no goroutine is active. */
  ghost predicate SnapshotInv(recs: seq<Rec>, active: int, d: Shutdown)
  {
    && (SnapshotTaken(d) ==> forall c :: 0 <= c < |recs| && recs[c].registered ==> c in d.list)
    && (d.Returned? && d.ok ==> active == 0)
  }

  // ---- every step keeps every part ----------------------------------------------------

  /** What shutdown relies on never goes back when a connection moves. */
  ghost predicate Keeps(r: C.Conn, q: C.Conn)
  {
    && (r.cancelled ==> q.cancelled)
    && (r.ops.draining ==> q.ops.draining && q.ops.done == r.ops.done)
    && (Drained(r.ops) ==> C.Frozen(r, q))
  }

  lemma InnerMoves(r: C.Conn, st: C.Step)
    requires C.Inv(r) && C.Enabled(r, st)
    ensures C.Inv(C.Apply(r, st)) && Keeps(r, C.Apply(r, st))
  {
    C.KeepsInv(r, st);
    if Drained(r.ops) {
      C.DrainedStep(r, st);
    }
    if r.ops.draining {
      var g :| g in r.handedOut;
      assert g in C.Apply(r, st).handedOut;
    }
  }

  lemma DrainMoved(conns: seq<C.Conn>, c: nat, q: C.Conn, d: Shutdown)
    requires c < |conns| && DrainInv(conns, d) && Keeps(conns[c], q)
    ensures DrainInv(conns[c := q], d)
  {
  }

  lemma SumsMoved(recs: seq<Rec>, c: nat, r: Rec)
    requires c < |recs|
    ensures Sum(ActiveWeight, recs[c := r]) == Sum(ActiveWeight, recs) - ActiveWeight(recs[c]) + ActiveWeight(r)
    ensures Sum(OnlineWeight, recs[c := r]) == Sum(OnlineWeight, recs) - OnlineWeight(recs[c]) + OnlineWeight(r)
  {
    SumUpdate(ActiveWeight, recs, c, r);
    SumUpdate(OnlineWeight, recs, c, r);
  }

  /** The parts of the invariant that do not look into the connections. */
  ghost predicate OuterInv(s: State)
  {
    && LockInv(s.recs, s.lock, s.shuttingDown, s.shutdown)
    && WakeInv(s.recs, s.enabled, s.wake, s.heartbeat)
    && SumsInv(s.recs, s.active, s.online, Pending(s.heartbeat))
    && OnceInv(s.recs, s.subtracted, Pending(s.heartbeat))
    && SnapshotInv(s.recs, s.active, s.shutdown)
  }

  lemma AcceptKeepsOuter(s: State, capacity: nat)
    requires OuterInv(s)
    ensures OuterInv(Apply(s, Accept(capacity)))
  {
    SumAppend(ActiveWeight, s.recs, Rec(Created, false));
    SumAppend(OnlineWeight, s.recs, Rec(Created, false));
    var n := |s.recs|;
    assert n !in Pending(s.heartbeat) && n !in s.subtracted;
    assert OnceAt(Rec(Created, false), Pending(s.heartbeat), s.subtracted, n);
  }

  lemma ServeKeepsLock(recs: seq<Rec>, c: nat, op: ServeOp, lock: Lock, shuttingDown: bool, d: Shutdown)
    requires LockInv(recs, lock, shuttingDown, d) && c < |recs| && recs[c].phase == From(op)
    requires op.Admit? ==> lock == Free
    ensures LockInv(recs[c := ServeRec(recs[c], op, shuttingDown)], ServeLock(lock, c, op, shuttingDown),
                    shuttingDown, d)
  {
  }

  lemma ServeKeepsWake(recs: seq<Rec>, c: nat, op: ServeOp, s: State)
    requires LockInv(recs, s.lock, s.shuttingDown, s.shutdown) && c < |recs| && recs[c].phase == From(op)
    requires WakeInv(recs, s.enabled, s.wake, s.heartbeat)
    ensures WakeInv(recs[c := ServeRec(recs[c], op, s.shuttingDown)], s.enabled,
                    if op.WakeAndUnlock? || op.WakeAfterRemove? then Woken(s) else s.wake, s.heartbeat)
  {
  }

  lemma ServeKeepsSums(recs: seq<Rec>, c: nat, op: ServeOp, shuttingDown: bool, active: int, online: int,
                       pending: seq<nat>)
    requires SumsInv(recs, active, online, pending) && c < |recs| && recs[c].phase == From(op)
    requires recs[c].registered ==> recs[c].phase == Added || recs[c].phase == Tallied || recs[c].phase == Serving
    ensures SumsInv(recs[c := ServeRec(recs[c], op, shuttingDown)],
                    active + ServeActive(op, shuttingDown), online + ServeOnline(op), pending)
    ensures op.Finish? ==> active > 0
  {
    SumsMoved(recs, c, ServeRec(recs[c], op, shuttingDown));
    SumBounds(ActiveWeight, recs);
    assert ActiveWeight(recs[c]) <= active;
  }

  lemma ServeKeepsOnce(recs: seq<Rec>, c: nat, op: ServeOp, shuttingDown: bool, subtracted: multiset<nat>,
                       pending: seq<nat>)
    requires OnceInv(recs, subtracted, pending) && c < |recs| && recs[c].phase == From(op)
    requires recs[c].registered ==> recs[c].phase == Added || recs[c].phase == Tallied || recs[c].phase == Serving
    ensures OnceInv(recs[c := ServeRec(recs[c], op, shuttingDown)],
                    subtracted + if op.SubtractOnline? then multiset{c} else multiset{}, pending)
  {
    var after := subtracted + if op.SubtractOnline? then multiset{c} else multiset{};
    assert OnceAt(recs[c], pending, subtracted, c);
    assert OnceAt(ServeRec(recs[c], op, shuttingDown), pending, after, c);
  }

  lemma ServeKeepsSnapshot(recs: seq<Rec>, c: nat, op: ServeOp, lock: Lock, shuttingDown: bool, active: int,
                           d: Shutdown)
    requires LockInv(recs, lock, shuttingDown, d) && SnapshotInv(recs, active, d) && (op.Finish? ==> active > 0)
    requires c < |recs| && recs[c].phase == From(op)
    ensures SnapshotInv(recs[c := ServeRec(recs[c], op, shuttingDown)], active + ServeActive(op, shuttingDown), d)
  {
  }

  lemma ServeKeepsOuter(s: State, c: nat, op: ServeOp)
    requires OuterInv(s) && ServeEnabled(s, c, op)
    ensures OuterInv(ApplyServe(s, c, op))
  {
    var t := ApplyServe(s, c, op);
    assert t.heartbeat == s.heartbeat && t.shutdown == s.shutdown && t.enabled == s.enabled;
    assert t.shuttingDown == s.shuttingDown && t.recs == s.recs[c := ServeRec(s.recs[c], op, s.shuttingDown)];
    ServeKeepsLock(s.recs, c, op, s.lock, s.shuttingDown, s.shutdown);
    ServeKeepsWake(s.recs, c, op, s);
    ServeKeepsSums(s.recs, c, op, s.shuttingDown, s.active, s.online, Pending(s.heartbeat));
    ServeKeepsOnce(s.recs, c, op, s.shuttingDown, s.subtracted, Pending(s.heartbeat));
    ServeKeepsSnapshot(s.recs, c, op, s.lock, s.shuttingDown, s.active, s.shutdown);
  }

  /** Taking a connection out of the registry, seen by the parts that only read the records. */
  lemma EvictKeepsRecords(s: State, c: nat)
    requires OuterInv(s) && c < |s.recs|
    ensures var recs := s.recs[c := s.recs[c].(registered := false)];
            && LockInv(recs, s.lock, s.shuttingDown, s.shutdown)
            && WakeInv(recs, s.enabled, s.wake, s.heartbeat)
            && SnapshotInv(recs, s.active, s.shutdown)
  {
  }

  lemma EvictKeepsCounts(recs: seq<Rec>, c: nat, active: int, online: int, subtracted: multiset<nat>, pending: seq<nat>)
    requires SumsInv(recs, active, online, pending) && OnceInv(recs, subtracted, pending)
    requires c < |recs| && recs[c].registered
    ensures SumsInv(recs[c := recs[c].(registered := false)], active, online, pending + [c])
    ensures OnceInv(recs[c := recs[c].(registered := false)], subtracted, pending + [c])
  {
    SumsMoved(recs, c, recs[c].(registered := false));
    assert multiset(pending + [c]) == multiset(pending) + multiset{c};
    assert OnceAt(recs[c], pending, subtracted, c);
  }

  lemma SweepKeepsCounts(recs: seq<Rec>, active: int, online: int, subtracted: multiset<nat>, pending: seq<nat>)
    requires SumsInv(recs, active, online, pending) && OnceInv(recs, subtracted, pending)
    ensures SumsInv(recs, active, online - |pending|, [])
    ensures OnceInv(recs, subtracted + multiset(pending), [])
  {
    forall c | 0 <= c < |recs| ensures OnceAt(recs[c], [], subtracted + multiset(pending), c) {
      assert OnceAt(recs[c], pending, subtracted, c);
    }
    assert forall c :: c in multiset(pending) ==> c in pending;
  }

  lemma EvictKeepsOuter(s: State, c: nat)
    requires OuterInv(s) && HeartEnabled(s, Evict(c))
    ensures OuterInv(ApplyHeart(s, Evict(c)))
  {
    EvictKeepsRecords(s, c);
    EvictKeepsCounts(s.recs, c, s.active, s.online, s.subtracted, s.heartbeat.evicted);
  }

  lemma HeartKeepsOuter(s: State, op: HeartOp)
    requires OuterInv(s) && HeartEnabled(s, op)
    ensures OuterInv(ApplyHeart(s, op))
  {
    if op.Evict? {
      EvictKeepsOuter(s, op.c);
    } else if op.EndSweep? {
      SweepKeepsCounts(s.recs, s.active, s.online, s.subtracted, s.heartbeat.evicted);
    }
  }

  lemma ShutKeepsOuter(s: State, op: ShutOp)
    requires OuterInv(s) && ShutEnabled(s, op)
    ensures OuterInv(ApplyShut(s, op))
  {
  }

  lemma KeepsOuter(s: State, st: Step)
    requires OuterInv(s) && Enabled(s, st)
    ensures OuterInv(Apply(s, st))
  {
    match st
    case Accept(capacity) => AcceptKeepsOuter(s, capacity);
    case Inner(_, _) =>
    case Serve(c, op) => ServeKeepsOuter(s, c, op);
    case Heart(op) => HeartKeepsOuter(s, op);
    case Shut(op) => ShutKeepsOuter(s, op);
  }

  /** The parts of the invariant that look into the connections. */
  ghost predicate InnerInv(s: State)
  {
    ConnsInv(s.conns) && ServeInv(s.recs, s.conns) && DrainInv(s.conns, s.shutdown)
  }

  /** A step other than starting a handler starts none, and `Cancel` only cancels. */
  lemma InnerRuns(r: C.Conn, st: C.Step)
    requires C.Enabled(r, st)
    ensures !st.StartHandler? && r.running == {} ==> C.Apply(r, st).running == {}
    ensures r.cancelled ==> C.Apply(r, st).cancelled
  {
  }

  lemma AcceptKeepsInner(s: State, capacity: nat)
    requires InnerInv(s)
    ensures InnerInv(Apply(s, Accept(capacity)))
  {
    C.NewInv(capacity);
  }

  /** Replacing one connection by a later state of itself. */
  lemma MoveKeepsInner(recs: seq<Rec>, conns: seq<C.Conn>, c: nat, q: C.Conn, d: Shutdown)
    requires ConnsInv(conns) && ServeInv(recs, conns) && DrainInv(conns, d)
    requires c < |conns| && C.Inv(q) && Keeps(conns[c], q) && (recs[c].phase != Serving ==> q.running == {})
    ensures ConnsInv(conns[c := q]) && ServeInv(recs, conns[c := q]) && DrainInv(conns[c := q], d)
  {
    DrainMoved(conns, c, q, d);
  }

  lemma CancelKeepsInner(recs: seq<Rec>, conns: seq<C.Conn>, c: nat, d: Shutdown)
    requires ConnsInv(conns) && ServeInv(recs, conns) && DrainInv(conns, d) && c < |conns|
    ensures ConnsInv(Cancelled(conns, c)) && ServeInv(recs, Cancelled(conns, c)) && DrainInv(Cancelled(conns, c), d)
    ensures Cancelled(conns, c)[c].cancelled
  {
    assert C.Apply(conns[c], C.Cancel) == conns[c].(cancelled := true);
    InnerMoves(conns[c], C.Cancel);
    MoveKeepsInner(recs, conns, c, conns[c].(cancelled := true), d);
  }

  lemma InnerKeepsInner(s: State, c: nat, st: C.Step)
    requires InnerInv(s) && Enabled(s, Inner(c, st))
    ensures InnerInv(Apply(s, Inner(c, st)))
  {
    InnerMoves(s.conns[c], st);
    InnerRuns(s.conns[c], st);
    MoveKeepsInner(s.recs, s.conns, c, C.Apply(s.conns[c], st), s.shutdown);
  }

  lemma ServeKeepsServe(recs: seq<Rec>, conns: seq<C.Conn>, c: nat, op: ServeOp, shuttingDown: bool)
    requires ServeInv(recs, conns) && c < |recs| && recs[c].phase == From(op)
    requires op.Remove? ==> conns[c].running == {}
    requires op.CloseContext? ==> conns[c].cancelled
    ensures ServeInv(recs[c := ServeRec(recs[c], op, shuttingDown)], conns)
  {
  }

  lemma ServeKeepsInner(s: State, c: nat, op: ServeOp)
    requires InnerInv(s) && ServeEnabled(s, c, op)
    ensures InnerInv(ApplyServe(s, c, op))
  {
    if op.CloseContext? {
      CancelKeepsInner(s.recs, s.conns, c, s.shutdown);
      ServeKeepsServe(s.recs, Cancelled(s.conns, c), c, op, s.shuttingDown);
    } else {
      ServeKeepsServe(s.recs, s.conns, c, op, s.shuttingDown);
    }
  }

  lemma HeartKeepsInner(s: State, op: HeartOp)
    requires InnerInv(s) && HeartEnabled(s, op)
    ensures InnerInv(ApplyHeart(s, op))
  {
    if op.CloseEvicted? {
      CancelKeepsInner(s.recs, s.conns, s.heartbeat.evicted[s.heartbeat.next], s.shutdown);
    }
  }

  lemma OneMoreDraining(conns: seq<C.Conn>, list: seq<nat>, channels: seq<nat>, channel: nat)
    requires DrainInv(conns, Draining(list, channels)) && |channels| < |list|
    requires WaitsOn(conns, list[|channels|], channel)
    ensures DrainInv(conns, Draining(list, channels + [channel]))
  {
  }

  lemma OneMoreClosed(conns: seq<C.Conn>, list: seq<nat>, ok: bool, next: nat)
    requires DrainInv(conns, Closing(list, ok, next)) && next < |list| && CancelledAt(conns, list[next])
    ensures DrainInv(conns, Closing(list, ok, next + 1))
  {
  }

  lemma DrainOne(r: C.Conn)
    requires C.Inv(r)
    ensures var q := C.Apply(r, C.Drain);
            C.Inv(q) && Keeps(r, q) && q.running == r.running && q.ops.draining && q.ops.done == r.ops.done
  {
    InnerMoves(r, C.Drain);
  }

  lemma DrainNextKeepsInner(s: State)
    requires InnerInv(s) && ShutEnabled(s, DrainNext)
    ensures InnerInv(ApplyShut(s, DrainNext))
  {
    var d := s.shutdown;
    var c := d.list[|d.channels|];
    DrainOne(s.conns[c]);
    MoveKeepsInner(s.recs, s.conns, c, C.Apply(s.conns[c], C.Drain), d);
    OneMoreDraining(ShutConns(s, DrainNext), d.list, d.channels, s.conns[c].ops.done);
  }

  lemma ShutKeepsDrain(s: State, op: ShutOp)
    requires DrainInv(s.conns, s.shutdown) && ShutEnabled(s, op) && !op.DrainNext? && !op.CloseNext?
    ensures DrainInv(s.conns, ShutNext(s, op))
  {
    var d := s.shutdown;
    if op.WaitNext? {
      assert WaitsOn(s.conns, d.list[d.next], d.channels[d.next]);
    } else if op.AllDrained? || op.WaitTimeout? {
      forall i | 0 <= i < |d.list| ensures DrainingAt(s.conns, d.list[i]) {
        assert WaitsOn(s.conns, d.list[i], d.channels[i]);
      }
    }
  }

  lemma ShutKeepsInner(s: State, op: ShutOp)
    requires InnerInv(s) && ShutEnabled(s, op)
    ensures InnerInv(ApplyShut(s, op))
  {
    if op.DrainNext? {
      DrainNextKeepsInner(s);
    } else if op.CloseNext? {
      var d := s.shutdown;
      CancelKeepsInner(s.recs, s.conns, d.list[d.next], d);
      OneMoreClosed(Cancelled(s.conns, d.list[d.next]), d.list, d.ok, d.next);
    } else {
      ShutKeepsDrain(s, op);
    }
  }

  lemma KeepsInner(s: State, st: Step)
    requires InnerInv(s) && Enabled(s, st)
    ensures InnerInv(Apply(s, st))
  {
    match st
    case Accept(capacity) => AcceptKeepsInner(s, capacity);
    case Inner(c, inner) => InnerKeepsInner(s, c, inner);
    case Serve(c, op) => ServeKeepsInner(s, c, op);
    case Heart(op) => HeartKeepsInner(s, op);
    case Shut(op) => ShutKeepsInner(s, op);
  }

  lemma {:induction false} RunOuter(states: seq<State>, steps: seq<Step>, k: nat)
    requires IsRun(states, steps) && k < |states|
    ensures OuterInv(states[k])
  {
    if k > 0 {
      RunOuter(states, steps, k - 1);
      KeepsOuter(states[k - 1], steps[k - 1]);
    }
  }

  lemma {:induction false} RunInner(states: seq<State>, steps: seq<Step>, k: nat)
    requires IsRun(states, steps) && k < |states|
    ensures InnerInv(states[k])
  {
    if k > 0 {
      RunInner(states, steps, k - 1);
      KeepsInner(states[k - 1], steps[k - 1]);
    }
  }

  // ---- what holds in every run --------------------------------------------------------

  /**
   Graceful shutdown: when waitConnectionsDrained has returned nil, every snapshotted connection, however long ago it
   drained, has no handler, no sender, no queued frame and no frame being written, and admits none of these any more.
   If nothing else had cancelled it, every frame it ever accepted has been written.
   */
  lemma GracefulShutdown(states: seq<State>, steps: seq<Step>, k: nat, c: nat)
    requires IsRun(states, steps) && k < |states|
    requires WaitedOut(states[k].shutdown) && c in states[k].shutdown.list
    ensures c < |states[k].conns|
    ensures var conn := states[k].conns[c];
            && C.Quiet(conn) && !SendAllowed(conn.ops) && !HandlerAllowed(conn.ops)
            && (!conn.cancelled ==> conn.accepted == conn.written)
  {
    RunInner(states, steps, k);
    assert DrainedAt(states[k].conns, c);
    C.DrainedIsQuiet(states[k].conns[c]);
  }

  /** Seen from one connection, a step of the handler is nothing or one step of that connection. */
  lemma StepOn(s: State, st: Step, c: nat) returns (same: bool, inner: C.Step)
    requires Enabled(s, st) && c < |s.conns|
    ensures c < |Apply(s, st).conns|
    ensures same ==> Apply(s, st).conns[c] == s.conns[c]
    ensures !same ==> C.Enabled(s.conns[c], inner) && Apply(s, st).conns[c] == C.Apply(s.conns[c], inner)
  {
    same, inner := Apply(s, st).conns[c] == s.conns[c], C.Cancel;
    if st.Inner? {
      inner := st.st;
    } else if st.Shut? && st.down.DrainNext? {
      inner := C.Drain;
    }
  }

  /** From then on closing the connections, or anything else, drops and writes nothing: their histories are final. */
  lemma {:induction false} ShutdownDropsNothing(states: seq<State>, steps: seq<Step>, j: nat, k: nat, c: nat)
    requires IsRun(states, steps) && j <= k < |states|
    requires WaitedOut(states[j].shutdown) && c in states[j].shutdown.list
    ensures c < |states[j].conns| && c < |states[k].conns|
    ensures C.Frozen(states[j].conns[c], states[k].conns[c])
    decreases k
  {
    RunInner(states, steps, j);
    assert DrainedAt(states[j].conns, c);
    if j < k {
      ShutdownDropsNothing(states, steps, j, k - 1, c);
      RunInner(states, steps, k - 1);
      var same, inner := StepOn(states[k - 1], steps[k - 1], c);
      if !same {
        InnerMoves(states[k - 1].conns[c], inner);
      }
    }
  }

  /** A connection that has not got past admission. */
  predicate Outside(r: Rec)
  {
    r.phase == Created || r.phase == TurnedAway
  }

  ghost predicate OnlyShrinks(before: seq<Rec>, after: seq<Rec>)
  {
    && |before| <= |after|
    && (forall c :: 0 <= c < |before| && Outside(before[c]) ==> Outside(after[c]))
    && (forall c :: |before| <= c < |after| ==> Outside(after[c]))
    && (forall c :: 0 <= c < |after| && after[c].registered ==> c < |before| && before[c].registered)
  }

  lemma ShrinkingComposes(a: seq<Rec>, b: seq<Rec>, c: seq<Rec>)
    requires OnlyShrinks(a, b) && OnlyShrinks(b, c)
    ensures OnlyShrinks(a, c)
  {
  }

  lemma ServeOnlyShrinks(recs: seq<Rec>, c: nat, op: ServeOp)
    requires c < |recs| && recs[c].phase == From(op) && !InAdmission(recs[c].phase)
    ensures OnlyShrinks(recs, recs[c := ServeRec(recs[c], op, true)]) && ServeActive(op, true) <= 0
  {
  }

  lemma ClosedDoor(s: State, st: Step)
    requires LockInv(s.recs, s.lock, s.shuttingDown, s.shutdown) && Enabled(s, st) && s.shuttingDown
    ensures OnlyShrinks(s.recs, Apply(s, st).recs)
    ensures Apply(s, st).shuttingDown && Apply(s, st).active <= s.active
  {
    match st
    case Serve(c, op) =>
      assert !InAdmission(s.recs[c].phase);
      ServeOnlyShrinks(s.recs, c, op);
    case _ =>
  }

  /**
   Admission versus shutdown: once beginShutdown has set its flag no connection is admitted or registered, and `active`
   only falls.
   */
  lemma {:induction false} NoAdmissionAfterShutdown(states: seq<State>, steps: seq<Step>, j: nat, k: nat)
    requires IsRun(states, steps) && j <= k < |states| && states[j].shuttingDown
    ensures OnlyShrinks(states[j].recs, states[k].recs)
    ensures states[k].shuttingDown && states[k].active <= states[j].active
    decreases k
  {
    if j < k {
      NoAdmissionAfterShutdown(states, steps, j, k - 1);
      RunOuter(states, steps, k - 1);
      ClosedDoor(states[k - 1], steps[k - 1]);
      ShrinkingComposes(states[j].recs, states[k - 1].recs, states[k].recs);
    }
  }

  /** When beginShutdown has released its lock, every connection that is still registered is draining. */
  lemma RegisteredIsDraining(states: seq<State>, steps: seq<Step>, k: nat, c: nat)
    requires IsRun(states, steps) && k < |states|
    requires states[k].shuttingDown && states[k].lock != HeldByShutdown
    requires c < |states[k].recs| && states[k].recs[c].registered
    ensures c < |states[k].conns| && states[k].conns[c].ops.draining
  {
    RunOuter(states, steps, k);
    RunInner(states, steps, k);
    var s := states[k];
    var i :| 0 <= i < |s.shutdown.list| && s.shutdown.list[i] == c;
    if s.shutdown.Waiting? {
      assert WaitsOn(s.conns, s.shutdown.list[i], s.shutdown.channels[i]);
    } else {
      assert DrainingAt(s.conns, s.shutdown.list[i]);
    }
  }

  /** However shutdown returns, it has cancelled the context of every snapshotted connection. */
  lemma CancelledOnReturn(states: seq<State>, steps: seq<Step>, k: nat, c: nat)
    requires IsRun(states, steps) && k < |states|
    requires states[k].shutdown.Returned? && c in states[k].shutdown.list
    ensures c < |states[k].conns| && states[k].conns[c].cancelled
  {
    RunInner(states, steps, k);
    assert CancelledAt(states[k].conns, c);
  }

  /**
   A nil return means that every admitted ServeHTTP goroutine has finished, no handler runs and the registry is empty.
   */
  lemma NilReturnIsComplete(states: seq<State>, steps: seq<Step>, k: nat, c: nat)
    requires IsRun(states, steps) && k < |states|
    requires states[k].shutdown.Returned? && states[k].shutdown.ok && c < |states[k].recs|
    ensures var r := states[k].recs[c]; (Outside(r) || r.phase == Finished) && !r.registered
    ensures c < |states[k].conns| && states[k].conns[c].running == {}
  {
    RunOuter(states, steps, k);
    RunInner(states, steps, k);
    SumBounds(ActiveWeight, states[k].recs);
    assert ActiveWeight(states[k].recs[c]) <= 0;
  }

  /** While shutdown waits for a connection without handlers, it or a goroutine of that connection can go on. */
  lemma ShutdownNotStuck(states: seq<State>, steps: seq<Step>, k: nat) returns (st: Step)
    requires IsRun(states, steps) && k < |states|
    requires states[k].shutdown.Waiting? && states[k].shutdown.next < |states[k].shutdown.list|
    requires var d := states[k].shutdown; d.list[d.next] < |states[k].conns| ==>
              states[k].conns[d.list[d.next]].running == {}
    ensures Enabled(states[k], st)
    ensures || st == Shut(WaitNext)
            || (st.Inner? && st.c == states[k].shutdown.list[states[k].shutdown.next] && C.IsWork(st.st))
  {
    RunInner(states, steps, k);
    var s := states[k];
    var c := s.shutdown.list[s.shutdown.next];
    assert WaitsOn(s.conns, c, s.shutdown.channels[s.shutdown.next]);
    if Drained(s.conns[c].ops) {
      st := Shut(WaitNext);
    } else {
      var inner := C.DrainNotStuck(s.conns[c]);
      st := Inner(c, inner);
    }
  }

  // ---- waiting ends -------------------------------------------------------------------

  /** What the goroutines of the listed connections still have to do. */
  function WorkLeft(conns: seq<C.Conn>, list: seq<nat>): int
    requires forall i :: 0 <= i < |list| ==> list[i] < |conns|
  {
    if list == [] then 0 else WorkLeft(conns, list[..|list| - 1]) + C.Remaining(conns[list[|list| - 1]])
  }

  predicate IsWorkOn(st: Step, c: nat)
  {
    st.Inner? && st.c == c && C.IsWork(st.st)
  }

  /** A step that brings the wait forward: work on a listed connection, or going on to the next one. */
  predicate Advances(st: Step, list: seq<nat>)
  {
    st == Shut(WaitNext) || (st.Inner? && st.c in list && C.IsWork(st.st))
  }

  function AdvancesBetween(steps: seq<Step>, list: seq<nat>, j: nat, k: nat): nat
    requires j <= k <= |steps|
  {
    if j == k then 0 else AdvancesBetween(steps, list, j, k - 1) + One(Advances(steps[k - 1], list))
  }

  ghost predicate AllWindingDown(conns: seq<C.Conn>, list: seq<nat>)
  {
    forall i :: 0 <= i < |list| ==> list[i] < |conns| && C.WindingDown(conns[list[i]])
  }

  lemma {:induction false} WorkLeftDrops(before: seq<C.Conn>, after: seq<C.Conn>, list: seq<nat>, st: Step)
    requires forall i :: 0 <= i < |list| ==> list[i] < |before| && list[i] < |after|
    requires forall i :: 0 <= i < |list| ==>
               C.Remaining(after[list[i]]) <= C.Remaining(before[list[i]]) - One(IsWorkOn(st, list[i]))
    ensures WorkLeft(after, list) <= WorkLeft(before, list) - One(st.Inner? && st.c in list && C.IsWork(st.st))
  {
    if list != [] {
      var n := |list| - 1;
      WorkLeftDrops(before, after, list[..n], st);
      assert list == list[..n] + [list[n]];
    }
  }

  lemma {:induction false} WorkLeftNonNegative(conns: seq<C.Conn>, list: seq<nat>)
    requires forall i :: 0 <= i < |list| ==> list[i] < |conns|
    ensures WorkLeft(conns, list) >= 0
  {
    if list != [] {
      WorkLeftNonNegative(conns, list[..|list| - 1]);
      SumBounds(C.SenderWork, conns[list[|list| - 1]].senders);
    }
  }

  lemma StepRunsDown(s: State, st: Step, c: nat)
    requires Enabled(s, st) && c < |s.conns| && C.WindingDown(s.conns[c])
    ensures c < |Apply(s, st).conns| && C.WindingDown(Apply(s, st).conns[c])
    ensures C.Remaining(Apply(s, st).conns[c]) <= C.Remaining(s.conns[c]) - One(IsWorkOn(st, c))
  {
    if st.Inner? && st.c == c {
      C.WorkRunsDown(s.conns[c], st.st);
    } else {
      var same, inner := StepOn(s, st, c);
      if !same {
        C.WorkRunsDown(s.conns[c], inner);
      }
    }
  }

  predicate PastDraining(d: Shutdown)
  {
    SnapshotTaken(d) && !d.Draining?
  }

  /** What is left of the wait: the work on the listed connections, and the connections not yet waited for. */
  function WaitLeft(s: State): int
    requires s.shutdown.Waiting? && forall i :: 0 <= i < |s.shutdown.list| ==> s.shutdown.list[i] < |s.conns|
  {
    WorkLeft(s.conns, s.shutdown.list) + |s.shutdown.list| - s.shutdown.next
  }

  lemma StepWaits(s: State, st: Step)
    requires Enabled(s, st) && PastDraining(s.shutdown) && AllWindingDown(s.conns, s.shutdown.list)
    ensures var t := Apply(s, st);
            && PastDraining(t.shutdown) && t.shutdown.list == s.shutdown.list
            && AllWindingDown(t.conns, t.shutdown.list)
            && (t.shutdown.Waiting? ==>
                  s.shutdown.Waiting? && WaitLeft(t) <= WaitLeft(s) - One(Advances(st, s.shutdown.list)))
  {
    var t, list := Apply(s, st), s.shutdown.list;
    forall i | 0 <= i < |list|
      ensures list[i] < |t.conns| && C.WindingDown(t.conns[list[i]])
      ensures C.Remaining(t.conns[list[i]]) <= C.Remaining(s.conns[list[i]]) - One(IsWorkOn(st, list[i]))
    {
      StepRunsDown(s, st, list[i]);
    }
    WorkLeftDrops(s.conns, t.conns, list, st);
  }

  lemma WaitsOnWindingDown(s: State)
    requires InnerInv(s) && s.shutdown.Waiting?
    requires forall c :: c in s.shutdown.list && c < |s.conns| ==> s.conns[c].running == {}
    ensures AllWindingDown(s.conns, s.shutdown.list)
  {
    forall i | 0 <= i < |s.shutdown.list|
      ensures s.shutdown.list[i] < |s.conns| && C.WindingDown(s.conns[s.shutdown.list[i]])
    {
      assert WaitsOn(s.conns, s.shutdown.list[i], s.shutdown.channels[i]);
    }
  }

  /**
   With no handler running on any snapshotted connection, shutdown waits only for a bounded number of steps: at most
   `WaitLeft` of them, and by ShutdownNotStuck one of them can be taken as long as it waits.
   */
  lemma {:induction false} ShutdownIsBounded(states: seq<State>, steps: seq<Step>, j: nat, k: nat)
    requires IsRun(states, steps) && j <= k < |states| && states[j].shutdown.Waiting?
    requires forall c :: c in states[j].shutdown.list && c < |states[j].conns| ==> states[j].conns[c].running == {}
    ensures AllWindingDown(states[j].conns, states[j].shutdown.list)
    ensures PastDraining(states[k].shutdown) && states[k].shutdown.list == states[j].shutdown.list
    ensures AllWindingDown(states[k].conns, states[k].shutdown.list)
    ensures states[k].shutdown.Waiting? ==>
              && AdvancesBetween(steps, states[j].shutdown.list, j, k) + WaitLeft(states[k]) <= WaitLeft(states[j])
              && 0 <= WaitLeft(states[k])
    decreases k
  {
    RunInner(states, steps, k);
    if j == k {
      WaitsOnWindingDown(states[k]);
    } else {
      ShutdownIsBounded(states, steps, j, k - 1);
      StepWaits(states[k - 1], steps[k - 1]);
    }
    WorkLeftNonNegative(states[k].conns, states[k].shutdown.list);
  }

  function Registered(r: Rec): int { if r.registered then 1 else 0 }
  function Uncounted(r: Rec): int { if r.phase == Added then 1 else 0 }
  function Unsubtracted(r: Rec): int { if r.phase == Subtracting then 1 else 0 }

  lemma {:induction false} OnlineSplits(recs: seq<Rec>)
    ensures Sum(OnlineWeight, recs) == Sum(Registered, recs) - Sum(Uncounted, recs) + Sum(Unsubtracted, recs)
  {
    if recs != [] {
      OnlineSplits(recs[..|recs| - 1]);
    }
  }

  /**
   Online ledger: `online` is the size of the registry, less admissions not yet counted, plus deletions not yet
   subtracted.
   */
  lemma OnlineLedger(states: seq<State>, steps: seq<Step>, k: nat)
    requires IsRun(states, steps) && k < |states|
    ensures var s := states[k];
            s.online == Sum(Registered, s.recs) - Sum(Uncounted, s.recs) + Sum(Unsubtracted, s.recs)
            + |Pending(s.heartbeat)|
  {
    RunOuter(states, steps, k);
    OnlineSplits(states[k].recs);
  }

  /**
   Handler or sweep, but never both: a connection is subtracted at most once, and by the time its goroutine finishes,
   once or about to be.
   */
  lemma SubtractedExactlyOnce(states: seq<State>, steps: seq<Step>, k: nat, c: nat)
    requires IsRun(states, steps) && k < |states| && c < |states[k].recs|
    ensures var s := states[k];
            && s.subtracted[c] <= 1
            && (s.subtracted[c] == 1 ==> !s.recs[c].registered)
            && (s.recs[c].phase == Finished ==> s.subtracted[c] + multiset(Pending(s.heartbeat))[c] == 1)
  {
    RunOuter(states, steps, k);
    assert OnceAt(states[k].recs[c], Pending(states[k].heartbeat), states[k].subtracted, c);
  }

  /**
   No lost wake-up: if the heartbeat loop sleeps on an empty registry that is empty no longer, a token waits in the
   channel or the admission holding the lock is between adding its connection and waking the loop.
   */
  lemma NoLostWakeUp(states: seq<State>, steps: seq<Step>, k: nat, c: nat)
    requires IsRun(states, steps) && k < |states|
    requires states[k].heartbeat.Asleep? && c < |states[k].recs| && states[k].recs[c].registered
    ensures var s := states[k];
            || (s.wake && Enabled(s, Heart(TakeWake)))
            || (s.lock.HeldBy? && s.lock.c < |s.recs|
                  && (s.recs[s.lock.c].phase == Added || s.recs[s.lock.c].phase == Tallied))
  {
    RunOuter(states, steps, k);
  }
}
