/**
 In what order the goroutines of server.go go through their steps in every run, that none of them stops half way, and
 what the outcome of a shutdown or of a sweep says about the way it took.
 */
module ServerOrder {
  import opened Server
  import opened ServerRuns
  import C = ConnectionRuns

  lemma StepAt(states: seq<State>, steps: seq<Step>, k: nat)
    requires IsRun(states, steps) && k < |steps|
    ensures Enabled(states[k], steps[k]) && states[k + 1] == Apply(states[k], steps[k])
  {
  }

  // ---- shutdown -----------------------------------------------------------------------

  /** The steps that the shutdown goroutine has taken. */
  function ShutOps(steps: seq<Step>): seq<ShutOp>
  {
    if steps == [] then []
    else
      var last := steps[|steps| - 1];
      ShutOps(steps[..|steps| - 1]) + if last.Shut? then [last.down] else []
  }

  function Times(op: ShutOp, n: nat): seq<ShutOp>
  {
    if n == 0 then [] else Times(op, n - 1) + [op]
  }

  /** `beginShutdown`, with the connections it finds. */
  function BeginScript(list: seq<nat>, drained: nat): seq<ShutOp>
  {
    [TellHeartbeat, BeginShutdown(list)] + Times(DrainNext, drained)
  }

  /** `waitConnectionsDrained`, after `waited` connections. */
  function WaitScript(list: seq<nat>, waited: nat): seq<ShutOp>
  {
    BeginScript(list, |list|) + [UnlockAfterDrain] + Times(WaitNext, waited)
  }

  /** `closeDrainingConnections`, after the wait has returned nil or timed out at one of the connections. */
  ghost predicate CloseScript(ops: seq<ShutOp>, list: seq<nat>, ok: bool, closed: nat)
  {
    exists waited: nat ::
      && (if ok then waited == |list| else waited < |list|)
      && ops == WaitScript(list, waited) + [if ok then AllDrained else WaitTimeout] + Times(CloseNext, closed)
  }

  ghost predicate ClosedScript(ops: seq<ShutOp>, list: seq<nat>, ok: bool)
  {
    ops != [] && ops[|ops| - 1] == AllClosed && CloseScript(ops[..|ops| - 1], list, ok, |list|)
  }

  /** How far `shutdown` has come, told by the steps it has taken. */
  ghost predicate FollowsScript(ops: seq<ShutOp>, d: Shutdown)
  {
    match d
    case NotCalled => ops == []
    case HeartbeatTold => ops == [TellHeartbeat]
    case Draining(list, channels) => ops == BeginScript(list, |channels|)
    case Waiting(list, _, next) => ops == WaitScript(list, next)
    case Closing(list, ok, next) => CloseScript(ops, list, ok, next)
    case AwaitingHandlers(list) => ClosedScript(ops, list, true)
    case Returned(list, ok) =>
      || (!ok && ClosedScript(ops, list, false))
      || (ops != [] && ops[|ops| - 1] == (if ok then HandlersDone else HandlersTimeout)
          && ClosedScript(ops[..|ops| - 1], list, true))
  }

  lemma CloseOneMore(ops: seq<ShutOp>, list: seq<nat>, ok: bool, closed: nat)
    requires CloseScript(ops, list, ok, closed)
    ensures CloseScript(ops + [CloseNext], list, ok, closed + 1)
  {
    var waited: nat :|
      && (if ok then waited == |list| else waited < |list|)
      && ops == WaitScript(list, waited) + [if ok then AllDrained else WaitTimeout] + Times(CloseNext, closed);
    var start := WaitScript(list, waited) + [if ok then AllDrained else WaitTimeout];
    assert ops + [CloseNext] == start + (Times(CloseNext, closed) + [CloseNext]);
  }

  lemma StartClosing(ops: seq<ShutOp>, list: seq<nat>, ok: bool, waited: nat)
    requires ops == WaitScript(list, waited) && if ok then waited == |list| else waited < |list|
    ensures CloseScript(ops + [if ok then AllDrained else WaitTimeout], list, ok, 0)
  {
    var last := if ok then AllDrained else WaitTimeout;
    assert ops + [last] == WaitScript(list, waited) + [last] + Times(CloseNext, 0);
  }

  lemma DrainOneMore(list: seq<nat>, drained: nat)
    ensures BeginScript(list, drained) + [DrainNext] == BeginScript(list, drained + 1)
  {
    assert Times(DrainNext, drained + 1) == Times(DrainNext, drained) + [DrainNext];
  }

  lemma WaitOneMore(list: seq<nat>, waited: nat)
    ensures WaitScript(list, waited) + [WaitNext] == WaitScript(list, waited + 1)
  {
    assert Times(WaitNext, waited + 1) == Times(WaitNext, waited) + [WaitNext];
  }

  /** Up to the end of the wait. */
  lemma ScriptGoesOn(ops: seq<ShutOp>, s: State, op: ShutOp)
    requires FollowsScript(ops, s.shutdown) && ShutEnabled(s, op)
    requires s.shutdown.NotCalled? || s.shutdown.HeartbeatTold? || s.shutdown.Draining? || s.shutdown.Waiting?
    requires s.shutdown.Waiting? ==> s.shutdown.next <= |s.shutdown.list|
    ensures FollowsScript(ops + [op], ApplyShut(s, op).shutdown)
  {
    var d := s.shutdown;
    match op
    case TellHeartbeat =>
    case BeginShutdown(list) => assert ops + [op] == BeginScript(list, 0);
    case DrainNext => DrainOneMore(d.list, |d.channels|);
    case UnlockAfterDrain => assert ops + [op] == WaitScript(d.list, 0);
    case WaitNext => WaitOneMore(d.list, d.next);
    case AllDrained => StartClosing(ops, d.list, true, d.next);
    case WaitTimeout => StartClosing(ops, d.list, false, d.next);
  }

  /** From there on. */
  lemma ScriptEnds(ops: seq<ShutOp>, s: State, op: ShutOp)
    requires FollowsScript(ops, s.shutdown) && ShutEnabled(s, op)
    requires s.shutdown.Closing? || s.shutdown.AwaitingHandlers?
    ensures FollowsScript(ops + [op], ApplyShut(s, op).shutdown)
  {
    assert (ops + [op])[..|ops|] == ops;
    if op.CloseNext? {
      CloseOneMore(ops, s.shutdown.list, s.shutdown.ok, s.shutdown.next);
    }
  }

  lemma ScriptStep(ops: seq<ShutOp>, s: State, st: Step)
    requires FollowsScript(ops, s.shutdown) && Enabled(s, st)
    requires s.shutdown.Waiting? ==> s.shutdown.next <= |s.shutdown.list|
    ensures FollowsScript(ops + if st.Shut? then [st.down] else [], Apply(s, st).shutdown)
  {
    if !st.Shut? {
      assert ops + [] == ops && Apply(s, st).shutdown == s.shutdown;
    } else if s.shutdown.Closing? || s.shutdown.AwaitingHandlers? {
      ScriptEnds(ops, s, st.down);
    } else {
      ScriptGoesOn(ops, s, st.down);
    }
  }

  /** The wait stays within its list, and whatever is in the list, or waits to be closed by it, is a connection. */
  lemma WaitInList(states: seq<State>, steps: seq<Step>, k: nat)
    requires IsRun(states, steps) && k < |states|
    ensures states[k].shutdown.Waiting? ==> states[k].shutdown.next <= |states[k].shutdown.list|
    ensures states[k].shutdown.Draining? ==> |states[k].shutdown.channels| <= |states[k].shutdown.list|
    ensures states[k].shutdown.Closing? ==>
              && states[k].shutdown.next <= |states[k].shutdown.list|
              && forall i :: 0 <= i < |states[k].shutdown.list| ==> states[k].shutdown.list[i] < |states[k].conns|
    ensures |states[k].recs| == |states[k].conns|
  {
    RunInner(states, steps, k);
    if states[k].shutdown.Closing? {
      var list := states[k].shutdown.list;
      forall i | 0 <= i < |list| ensures list[i] < |states[k].conns| {
        assert DrainingAt(states[k].conns, list[i]);
      }
    }
  }

  /**
   Whatever else runs meanwhile, shutdown tells the heartbeat loop, takes its snapshot and drains each connection in
   it, waits for each of them until it is through or out of time, closes each of them, and only after a wait that was
   through waits for the handlers. It returns nil exactly if that, too, was not cut short.
   */
  lemma {:induction false} ShutdownFollowsScript(states: seq<State>, steps: seq<Step>, k: nat)
    requires IsRun(states, steps) && k < |states|
    ensures FollowsScript(ShutOps(steps[..k]), states[k].shutdown)
  {
    if k > 0 {
      ShutdownFollowsScript(states, steps, k - 1);
      WaitInList(states, steps, k - 1);
      StepAt(states, steps, k - 1);
      assert steps[..k][..k - 1] == steps[..k - 1];
      ScriptStep(ShutOps(steps[..k - 1]), states[k - 1], steps[k - 1]);
    }
  }

  /** An error return has a cause: a wait was cut short by the caller's context. */
  lemma {:induction false} ErrorReturnHasCause(states: seq<State>, steps: seq<Step>, k: nat) returns (j: nat)
    requires IsRun(states, steps) && k < |states|
    requires (states[k].shutdown.Returned? || states[k].shutdown.Closing?) && !states[k].shutdown.ok
    ensures j < k && (steps[j] == Shut(WaitTimeout) || steps[j] == Shut(HandlersTimeout))
    ensures states[k].shutdown.Closing? ==> steps[j] == Shut(WaitTimeout)
  {
    StepAt(states, steps, k - 1);
    var d := states[k - 1].shutdown;
    if (d.Returned? || d.Closing?) && !d.ok {
      j := ErrorReturnHasCause(states, steps, k - 1);
    } else {
      j := k - 1;
    }
  }

  /** After a wait that was not cut short and the closing, all that is left to shutdown is to wait for the handlers. */
  lemma WaitsForHandlers(states: seq<State>, steps: seq<Step>, j: nat, k: nat)
    requires IsRun(states, steps) && j < k < |steps|
    requires steps[j] == Shut(AllClosed) && steps[k].Shut?
    requires forall i :: 0 <= i < j ==> steps[i] != Shut(WaitTimeout)
    requires forall i :: j < i < k ==> !steps[i].Shut?
    ensures steps[k].down == HandlersDone || steps[k].down == HandlersTimeout
    ensures states[k + 1].shutdown.Returned? && (states[k + 1].shutdown.ok <==> steps[k].down == HandlersDone)
  {
    StepAt(states, steps, j);
    StepAt(states, steps, k);
    ShutdownStays(states, steps, j + 1, k);
    if !states[j].shutdown.ok {
      var i := ErrorReturnHasCause(states, steps, j);
    }
  }

  lemma {:induction false} ShutdownStays(states: seq<State>, steps: seq<Step>, j: nat, k: nat)
    requires IsRun(states, steps) && j <= k < |states|
    requires forall i :: j <= i < k ==> !steps[i].Shut?
    ensures states[k].shutdown == states[j].shutdown
    decreases k
  {
    if j < k {
      ShutdownStays(states, steps, j, k - 1);
      StepAt(states, steps, k - 1);
    }
  }

  /** The registered connections among the first `n`, in order. */
  function RegisteredAmong(recs: seq<Rec>, n: nat): seq<nat>
    requires n <= |recs|
  {
    if n == 0 then [] else RegisteredAmong(recs, n - 1) + if recs[n - 1].registered then [n - 1] else []
  }

  lemma {:induction false} RegisteredAmongIs(recs: seq<Rec>, n: nat)
    requires n <= |recs|
    ensures forall c: nat :: c in RegisteredAmong(recs, n) <==> c < n && recs[c].registered
    ensures forall i, j :: 0 <= i < j < |RegisteredAmong(recs, n)| ==>
              RegisteredAmong(recs, n)[i] != RegisteredAmong(recs, n)[j]
  {
    if n > 0 {
      RegisteredAmongIs(recs, n - 1);
      var before := RegisteredAmong(recs, n - 1);
      assert forall i :: 0 <= i < |before| ==> before[i] in before;
    }
  }

  lemma SnapshotExists(recs: seq<Rec>) returns (list: seq<nat>)
    ensures IsSnapshot(recs, list)
  {
    list := RegisteredAmong(recs, |recs|);
    RegisteredAmongIs(recs, |recs|);
    assert forall i :: 0 <= i < |list| ==> list[i] in list;
  }

  /**
   Shutdown never stops half way: from its call to its return either it can take a step, or it waits for an admission
   that holds the lock and can go on, or for a connection to drain (see ShutdownNotStuck).
   */
  lemma ShutdownGoesOn(states: seq<State>, steps: seq<Step>, k: nat) returns (st: Step)
    requires IsRun(states, steps) && k < |states|
    requires !states[k].shutdown.Returned?
    requires states[k].shutdown.Waiting? ==> states[k].shutdown.next == |states[k].shutdown.list|
    ensures Enabled(states[k], st)
    ensures st.Shut? || (states[k].lock.HeldBy? && st.Serve? && st.c == states[k].lock.c)
  {
    WaitInList(states, steps, k);
    var s := states[k];
    match s.shutdown
    case NotCalled => st := Shut(TellHeartbeat);
    case HeartbeatTold =>
      RunOuter(states, steps, k);
      if s.lock.HeldBy? {
        assert InAdmission(s.recs[s.lock.c].phase);
        var op := NextOp(s, s.lock.c);
        st := Serve(s.lock.c, op);
      } else {
        var list := SnapshotExists(s.recs);
        st := Shut(BeginShutdown(list));
      }
    case Draining(list, channels) =>
      if |channels| < |list| {
        RegisteredExists(states, steps, k, |channels|);
        st := Shut(DrainNext);
      } else {
        st := Shut(UnlockAfterDrain);
      }
    case Waiting(_, _, _) => st := Shut(AllDrained);
    case Closing(list, _, next) =>
      if next < |list| {
        st := Shut(CloseNext);
      } else {
        st := Shut(AllClosed);
      }
    case AwaitingHandlers(_) => st := Shut(if s.active == 0 then HandlersDone else HandlersTimeout);
  }

  /** Everything in the snapshot is a connection. */
  lemma {:induction false} RegisteredExists(states: seq<State>, steps: seq<Step>, k: nat, i: nat)
    requires IsRun(states, steps) && k < |states|
    requires SnapshotTaken(states[k].shutdown) && i < |states[k].shutdown.list|
    ensures states[k].shutdown.list[i] < |states[k].conns| == |states[k].recs|
  {
    StepAt(states, steps, k - 1);
    WaitInList(states, steps, k - 1);
    WaitInList(states, steps, k);
    if SnapshotTaken(states[k - 1].shutdown) {
      RegisteredExists(states, steps, k - 1, i);
    }
  }

  // ---- ServeHTTP ----------------------------------------------------------------------

  /** The step a ServeHTTP goroutine takes next, in its phase. */
  lemma NextOp(s: State, c: nat) returns (op: ServeOp)
    requires Exists(s, c)
    requires s.recs[c].phase != TurnedAway && s.recs[c].phase != Finished
    requires s.recs[c].phase == Created ==> s.lock == Free
    requires s.recs[c].phase == Serving ==> s.conns[c].running == {}
    ensures ServeEnabled(s, c, op)
  {
    match s.recs[c].phase
    case Created => op := Admit;
    case Counted => op := RegistryAdd;
    case Added => op := CountOnline;
    case Tallied => op := WakeAndUnlock;
    case Serving => op := Remove;
    case Subtracting => op := SubtractOnline;
    case Subtracted => op := WakeAfterRemove;
    case Removed => op := CloseContext;
    case Closed => op := Finish;
  }

  /** What may follow what in one ServeHTTP goroutine; `own`: it took the connection out of the registry itself. */
  predicate ServeFollows(a: ServeOp, b: ServeOp, own: bool)
  {
    match a
    case Admit => b == RegistryAdd
    case RegistryAdd => b == CountOnline
    case CountOnline => b == WakeAndUnlock
    case WakeAndUnlock => b == Remove
    case Remove => b == if own then SubtractOnline else CloseContext
    case SubtractOnline => b == WakeAfterRemove
    case WakeAfterRemove => b == CloseContext
    case CloseContext => b == Finish
    case Finish => false
  }

  lemma {:induction false} PhaseStays(states: seq<State>, steps: seq<Step>, c: nat, j: nat, k: nat)
    requires IsRun(states, steps) && j <= k < |states| && c < |states[j].recs|
    requires forall i :: j <= i < k ==> !(steps[i].Serve? && steps[i].c == c)
    ensures c < |states[k].recs| && states[k].recs[c].phase == states[j].recs[c].phase
    decreases k
  {
    if j < k {
      PhaseStays(states, steps, c, j, k - 1);
      StepAt(states, steps, k - 1);
    }
  }

  /** Between one step of a ServeHTTP goroutine and its next one, whatever the others do, it skips nothing. */
  lemma ServeInOrder(states: seq<State>, steps: seq<Step>, c: nat, j: nat, k: nat)
    requires IsRun(states, steps) && j < k < |steps|
    requires steps[j].Serve? && steps[j].c == c && steps[k].Serve? && steps[k].c == c
    requires forall i :: j < i < k ==> !(steps[i].Serve? && steps[i].c == c)
    ensures c < |states[j].recs|
    ensures ServeFollows(steps[j].op, steps[k].op, states[j].recs[c].registered)
  {
    StepAt(states, steps, j);
    StepAt(states, steps, k);
    PhaseStays(states, steps, c, j + 1, k);
  }

  /** A connection is turned away only by a shutdown. */
  lemma {:induction false} TurnedAwayByShutdown(states: seq<State>, steps: seq<Step>, k: nat, c: nat)
    requires IsRun(states, steps) && k < |states| && c < |states[k].recs| && states[k].recs[c].phase == TurnedAway
    ensures states[k].shuttingDown
  {
    StepAt(states, steps, k - 1);
    if c < |states[k - 1].recs| && states[k - 1].recs[c].phase == TurnedAway {
      TurnedAwayByShutdown(states, steps, k - 1, c);
    }
  }

  // ---- heartbeat loop -----------------------------------------------------------------

  /**
   What may follow what in the heartbeat loop; `found`: the registry had a connection, `evicted`: the sweep took one.
   */
  predicate HeartFollows(a: HeartOp, b: HeartOp, found: bool, evicted: bool)
  {
    match a
    case Look => b.TakeWake? || b.StopLoop? || (b.Timer? && found)
    case TakeWake => b.Look?
    case Timer => b.Evict? || b.EndSweep?
    case Evict(_) => b.Evict? || b.EndSweep?
    case EndSweep => if evicted then b.CloseEvicted? else b.Look?
    case CloseEvicted => b.CloseEvicted? || b.WakeAfterSweep?
    case WakeAfterSweep => b.Look?
    case StopLoop => false
  }

  lemma {:induction false} HeartbeatStays(states: seq<State>, steps: seq<Step>, j: nat, k: nat)
    requires IsRun(states, steps) && j <= k < |states|
    requires forall i :: j <= i < k ==> !steps[i].Heart?
    ensures states[k].heartbeat == states[j].heartbeat
    decreases k
  {
    if j < k {
      HeartbeatStays(states, steps, j, k - 1);
      StepAt(states, steps, k - 1);
    }
  }

  /** The loop sweeps whenever its timer fires, closes what a sweep took, and looks again after that or a wake-up. */
  lemma HeartInOrder(states: seq<State>, steps: seq<Step>, j: nat, k: nat)
    requires IsRun(states, steps) && j < k < |steps| && steps[j].Heart? && steps[k].Heart?
    requires forall i :: j < i < k ==> !steps[i].Heart?
    ensures HeartFollows(steps[j].beat, steps[k].beat,
                         exists c :: 0 <= c < |states[j].recs| && states[j].recs[c].registered,
                         states[j].heartbeat.Sweeping? && states[j].heartbeat.evicted != [])
  {
    StepAt(states, steps, j);
    StepAt(states, steps, k);
    HeartbeatStays(states, steps, j + 1, k);
  }

  ghost predicate HeartInv(s: State)
  {
    && |s.recs| == |s.conns|
    && (s.heartbeat.Sweeping? || s.heartbeat.ClosingEvicted? ==> forall c :: c in s.heartbeat.evicted ==> c < |s.recs|)
    && (s.heartbeat.ClosingEvicted? ==>
          && s.heartbeat.next <= |s.heartbeat.evicted|
          && forall i :: 0 <= i < s.heartbeat.next ==> CancelledAt(s.conns, s.heartbeat.evicted[i]))
  }

  lemma CancelledStays(s: State, st: Step, c: nat)
    requires Enabled(s, st) && CancelledAt(s.conns, c)
    ensures CancelledAt(Apply(s, st).conns, c)
  {
    var same, inner := StepOn(s, st, c);
    if !same {
      StaysCancelled(s.conns[c], inner);
    }
  }

  lemma StaysCancelled(conn: C.Conn, st: C.Step)
    requires C.Enabled(conn, st) && conn.cancelled
    ensures C.Apply(conn, st).cancelled
  {
  }

  lemma HeartKeepsInv(s: State, op: HeartOp)
    requires HeartInv(s) && HeartEnabled(s, op)
    ensures HeartInv(ApplyHeart(s, op))
  {
    var t := ApplyHeart(s, op);
    if op.CloseEvicted? {
      forall i | 0 <= i < t.heartbeat.next ensures CancelledAt(t.conns, t.heartbeat.evicted[i]) {
        assert i < s.heartbeat.next ==> CancelledAt(s.conns, s.heartbeat.evicted[i]);
      }
    }
  }

  lemma KeepsHeartInv(s: State, st: Step)
    requires HeartInv(s) && Enabled(s, st)
    ensures HeartInv(Apply(s, st))
  {
    if st.Heart? {
      HeartKeepsInv(s, st.beat);
    } else {
      var t := Apply(s, st);
      assert t.heartbeat == s.heartbeat && |s.recs| <= |t.recs|;
      if s.heartbeat.ClosingEvicted? {
        forall i | 0 <= i < s.heartbeat.next ensures CancelledAt(t.conns, s.heartbeat.evicted[i]) {
          CancelledStays(s, st, s.heartbeat.evicted[i]);
        }
      }
    }
  }

  lemma {:induction false} RunHeart(states: seq<State>, steps: seq<Step>, k: nat)
    requires IsRun(states, steps) && k < |states|
    ensures HeartInv(states[k])
  {
    if k > 0 {
      RunHeart(states, steps, k - 1);
      StepAt(states, steps, k - 1);
      KeepsHeartInv(states[k - 1], steps[k - 1]);
    }
  }

  /** Still to be closed by the loop. */
  predicate ToClose(h: Heartbeat, c: nat)
  {
    h.ClosingEvicted? && h.next <= |h.evicted| && c in h.evicted[h.next..]
  }

  /**
   Every connection that a sweep evicted, and so subtracted, has its context cancelled by the loop: at once or, until
   the loop is through closing, in its turn. When the loop looks at the registry again all of them are cancelled.
   */
  lemma {:induction false} EvictedIsCancelled(states: seq<State>, steps: seq<Step>, j: nat, k: nat, c: nat)
    requires IsRun(states, steps) && j < k < |states|
    requires steps[j] == Heart(EndSweep) && states[j].heartbeat.Sweeping? && c in states[j].heartbeat.evicted
    ensures CancelledAt(states[k].conns, c) || ToClose(states[k].heartbeat, c)
    ensures k < |steps| && steps[k] == Heart(Look) ==> CancelledAt(states[k].conns, c)
    decreases k
  {
    StepAt(states, steps, k - 1);
    if k < |steps| {
      StepAt(states, steps, k);
    }
    if j + 1 < k {
      EvictedIsCancelled(states, steps, j, k - 1, c);
      RunHeart(states, steps, k - 1);
      var s, t := states[k - 1], states[k];
      if CancelledAt(s.conns, c) {
        CancelledStays(s, steps[k - 1], c);
      } else {
        ClosesInTurn(s, steps[k - 1], c);
      }
    }
  }

  lemma ClosesInTurn(s: State, st: Step, c: nat)
    requires HeartInv(s) && Enabled(s, st) && ToClose(s.heartbeat, c)
    ensures CancelledAt(Apply(s, st).conns, c) || ToClose(Apply(s, st).heartbeat, c)
  {
    var h := s.heartbeat;
    if st.Heart? && st.beat.CloseEvicted? {
      assert h.evicted[h.next..] == [h.evicted[h.next]] + h.evicted[h.next + 1..];
    }
  }

  /**
   The loop never stops half way: unless it waits for a wake-up over an empty registry, or was stopped, it can go on.
   */
  lemma HeartGoesOn(states: seq<State>, steps: seq<Step>, k: nat) returns (op: HeartOp)
    requires IsRun(states, steps) && k < |states|
    requires !states[k].heartbeat.Stopped?
    requires states[k].heartbeat.Asleep? ==> states[k].wake || states[k].stop
    ensures Enabled(states[k], Heart(op)) && !op.Evict?
  {
    RunHeart(states, steps, k);
    var s := states[k];
    match s.heartbeat
    case Looking => op := Look;
    case Asleep => op := if s.wake then TakeWake else StopLoop;
    case Timed => op := Timer;
    case Sweeping(_) => op := EndSweep;
    case ClosingEvicted(evicted, next) =>
      if next < |evicted| {
        assert evicted[next] in evicted;
        op := CloseEvicted;
      } else {
        op := WakeAfterSweep;
      }
  }

  /** The loop stops only if heartbeats are off or shutdown has told it to. */
  lemma {:induction false} StoppedByShutdown(states: seq<State>, steps: seq<Step>, k: nat)
    requires IsRun(states, steps) && k < |states|
    ensures states[k].enabled == states[0].enabled
    ensures states[k].heartbeat.Stopped? ==> !states[0].enabled || states[k].stop
  {
    if k > 0 {
      StoppedByShutdown(states, steps, k - 1);
      StepAt(states, steps, k - 1);
    }
  }

  /** `stopHeartbeatLoop` is for good, and nothing else stops the loop. */
  lemma {:induction false} StopIsTold(states: seq<State>, steps: seq<Step>, k: nat)
    requires IsRun(states, steps) && k < |states|
    ensures states[k].stop <==> exists j :: 0 <= j < k && steps[j] == Shut(TellHeartbeat)
  {
    if k > 0 {
      StopIsTold(states, steps, k - 1);
      StepAt(states, steps, k - 1);
    }
  }

  /** The wake channel: three wake-ups fill its slot, unless heartbeats are off, and only the loop empties it. */
  lemma TokenExactly(states: seq<State>, steps: seq<Step>, k: nat)
    requires IsRun(states, steps) && k < |steps|
    ensures var woken := (steps[k].Serve? && (steps[k].op == WakeAndUnlock || steps[k].op == WakeAfterRemove))
                         || steps[k] == Heart(WakeAfterSweep);
            states[k + 1].wake <==> (woken && states[k].enabled) || (states[k].wake && steps[k] != Heart(TakeWake))
    ensures steps[k] == Heart(TakeWake) ==> states[k].wake
    ensures steps[k] == Heart(StopLoop) ==> states[k].stop
  {
    StepAt(states, steps, k);
  }

  /** In a sweep any registered connection may turn out idle; each one evicted is then closed in turn. */
  lemma SweepTakesAndCloses(states: seq<State>, steps: seq<Step>, k: nat, c: nat)
    requires IsRun(states, steps) && k < |states|
    ensures states[k].heartbeat.Sweeping? && c < |states[k].recs| && states[k].recs[c].registered ==>
              Enabled(states[k], Heart(Evict(c)))
    ensures k < |steps| && steps[k] == Heart(Evict(c)) ==>
              && states[k].heartbeat.Sweeping? && c < |states[k].recs| == |states[k + 1].recs|
              && states[k].recs[c].registered && !states[k + 1].recs[c].registered
              && states[k + 1].heartbeat == Sweeping(states[k].heartbeat.evicted + [c])
    ensures k < |steps| && steps[k] == Heart(CloseEvicted) ==>
              && states[k].heartbeat.ClosingEvicted? && states[k].heartbeat.next < |states[k].heartbeat.evicted|
              && states[k + 1].heartbeat == ClosingEvicted(states[k].heartbeat.evicted, states[k].heartbeat.next + 1)
              && CancelledAt(states[k + 1].conns, states[k].heartbeat.evicted[states[k].heartbeat.next])
  {
    RunHeart(states, steps, k);
    if k < |steps| {
      StepAt(states, steps, k);
    }
  }

  // ---- what anybody does to a connection ----------------------------------------------

  /** A step that may change the machine of connection `c`. */
  ghost predicate Touches(s: State, st: Step, c: nat)
  {
    match st
    case Inner(d, _) => d == c
    case Serve(d, op) => d == c && op == CloseContext
    case Heart(op) => op == CloseEvicted && s.heartbeat.ClosingEvicted? && ToClose(s.heartbeat, c)
    case Shut(op) =>
      || (op == DrainNext && s.shutdown.Draining? && c in s.shutdown.list)
      || (op == CloseNext && s.shutdown.Closing? && c in s.shutdown.list)
    case Accept(_) => false
  }

  lemma StepTouches(s: State, st: Step, c: nat)
    requires HeartInv(s) && Enabled(s, st) && c < |s.conns|
    ensures c < |Apply(s, st).conns|
    ensures Apply(s, st).conns[c] != s.conns[c] ==> Touches(s, st, c)
  {
    if st == Heart(CloseEvicted) {
      var h := s.heartbeat;
      assert h.evicted[h.next..][0] == h.evicted[h.next];
    }
  }

  /** Only its own goroutines, its closing, the sweep that evicted it and shutdown touch a connection. */
  lemma TouchedBy(states: seq<State>, steps: seq<Step>, k: nat, c: nat)
    requires IsRun(states, steps) && k < |steps| && c < |states[k].conns|
    ensures c < |states[k + 1].conns|
    ensures states[k + 1].conns[c] != states[k].conns[c] ==> Touches(states[k], steps[k], c)
  {
    RunHeart(states, steps, k);
    StepAt(states, steps, k);
    StepTouches(states[k], steps[k], c);
  }

  /** Only shutdown begins to drain a connection, and only one it has listed. */
  lemma DrainedBy(states: seq<State>, steps: seq<Step>, k: nat, c: nat)
    requires IsRun(states, steps) && k < |steps| && c < |states[k].conns| && c < |states[k + 1].conns|
    requires !states[k].conns[c].ops.draining && states[k + 1].conns[c].ops.draining
    ensures steps[k] == Shut(DrainNext) && states[k].shutdown.Draining? && c in states[k].shutdown.list
  {
    StepAt(states, steps, k);
    StepDrains(states[k], steps[k], c);
  }

  lemma StepDrains(s: State, st: Step, c: nat)
    requires Enabled(s, st) && c < |s.conns| && c < |Apply(s, st).conns|
    requires !s.conns[c].ops.draining && Apply(s, st).conns[c].ops.draining
    ensures st == Shut(DrainNext) && s.shutdown.Draining? && c in s.shutdown.list
  {
    if st.Inner? && st.c == c {
      OnlyDrainDrains(s.conns[c], st.st);
    }
  }

  lemma OnlyDrainDrains(conn: C.Conn, st: C.Step)
    requires C.Enabled(conn, st) && !st.Drain?
    ensures C.Apply(conn, st).ops.draining == conn.ops.draining
  {
  }

  /** Shutdown lists each connection that is registered when it takes its snapshot, and lists it once. */
  lemma SnapshotIsExact(states: seq<State>, steps: seq<Step>, k: nat, list: seq<nat>)
    requires IsRun(states, steps) && k < |steps| && steps[k] == Shut(BeginShutdown(list))
    ensures states[k + 1].shutdown.Draining? && states[k + 1].shutdown.list == list
    ensures forall c: nat :: c in list <==> c < |states[k].recs| && states[k].recs[c].registered
    ensures forall i, j :: 0 <= i < j < |list| ==> list[i] != list[j]
  {
    StepAt(states, steps, k);
  }

  /** New connections may come at any moment, and the caller's context may end a wait at any moment. */
  lemma MayCome(s: State, capacity: nat)
    ensures Enabled(s, Accept(capacity))
    ensures var t := Apply(s, Accept(capacity));
            t.recs == s.recs + [Rec(Created, false)] && t.conns == s.conns + [C.New(capacity)]
    ensures s.shutdown.Waiting? && s.shutdown.next < |s.shutdown.list| ==> Enabled(s, Shut(WaitTimeout))
    ensures s.shutdown.AwaitingHandlers? ==> Enabled(s, Shut(HandlersTimeout))
  {
  }

  /**
   The goroutines of a connection go on whatever the handler does, except that handlers run only while it is served.
   */
  lemma InnerMay(s: State, c: nat, st: C.Step)
    requires Exists(s, c) && C.Enabled(s.conns[c], st) && !st.Drain?
    requires st.StartHandler? ==> s.recs[c].phase == Serving
    ensures Enabled(s, Inner(c, st)) && Apply(s, Inner(c, st)) == s.(conns := s.conns[c := C.Apply(s.conns[c], st)])
  {
  }

  /** A handler starts with nothing registered and, if heartbeats are on, its loop about to look. */
  lemma StartsEmpty(states: seq<State>, steps: seq<Step>)
    requires IsRun(states, steps)
    ensures var s := states[0];
            && s.recs == [] && s.conns == [] && s.active == 0 && s.online == 0 && s.lock == Free
            && !s.shuttingDown && !s.wake && !s.stop && s.shutdown == NotCalled
            && s.heartbeat == if s.enabled then Looking else Stopped
  {
  }
}
