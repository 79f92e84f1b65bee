/**
 The handler of server.go over any number of connections: admission under `admissionMu`, the ServeHTTP
 goroutine of each connection, the heartbeat loop with its one-slot wake channel and expiry sweep, and
 the shutdown goroutine. Every connection is a whole ConnectionRuns machine. The registry is the set of
 connections marked `registered` (module Registry shows that its maps agree with such a set).
 */
module Server {
  import opened Sums
  import Operations
  import C = ConnectionRuns

  /** How far the ServeHTTP goroutine of a connection is. It holds `admissionMu` in the three middle phases. */
  datatype Phase =
    | Created
    | TurnedAway
    | Counted      // active.Add(1) done
    | Added        // in the registry, online.Add(1) not yet done
    | Tallied      // online counted, heartbeat loop not yet woken
    | Serving
    | Subtracting  // removed it from the registry itself, online.Add(-1) not yet done
    | Subtracted   // heartbeat loop not yet woken
    | Removed
    | Closed
    | Finished     // active.Done() done

  datatype Rec = Rec(phase: Phase, registered: bool)

  datatype Lock = Free | HeldBy(c: nat) | HeldByShutdown

  datatype Heartbeat =
    | Looking
    | Asleep       // saw an empty registry, waits for wake or stop
    | Timed        // waits for the timer, wake or stop
    | Sweeping(evicted: seq<nat>)
    | ClosingEvicted(evicted: seq<nat>, next: nat)
    | Stopped

  datatype Shutdown =
    | NotCalled
    | HeartbeatTold
    | Draining(list: seq<nat>, channels: seq<nat>)
    | Waiting(list: seq<nat>, channels: seq<nat>, next: nat)
    | Closing(list: seq<nat>, ok: bool, next: nat)
    | AwaitingHandlers(list: seq<nat>)
    | Returned(list: seq<nat>, ok: bool)

  datatype State = State(
    enabled: bool,              // heartbeatEnabled()
    recs: seq<Rec>,             // every connection ever made; a fresh index is a fresh key
    conns: seq<C.Conn>,         // and its machine
    shuttingDown: bool,
    lock: Lock,
    active: int,
    online: int,
    subtracted: multiset<nat>,  // history: connections subtracted from `online`
    wake: bool,                 // the one-slot wake channel
    stop: bool,
    heartbeat: Heartbeat,
    shutdown: Shutdown)

  /** Steps of the ServeHTTP goroutine of one connection. */
  datatype ServeOp =
    | Admit | RegistryAdd | CountOnline | WakeAndUnlock
    | Remove | SubtractOnline | WakeAfterRemove | CloseContext | Finish

  /** Steps of the heartbeat loop and its expiry sweep. */
  datatype HeartOp =
    | Look | TakeWake | Timer | Evict(c: nat) | EndSweep | CloseEvicted | WakeAfterSweep | StopLoop

  /** Steps of the shutdown goroutine. */
  datatype ShutOp =
    | TellHeartbeat | BeginShutdown(list: seq<nat>) | DrainNext | UnlockAfterDrain
    | WaitNext | AllDrained | WaitTimeout | CloseNext | AllClosed | HandlersDone | HandlersTimeout

  datatype Step =
    | Accept(capacity: nat)
    | Inner(c: nat, st: C.Step)  // any goroutine working on connection c
    | Serve(c: nat, op: ServeOp)
    | Heart(beat: HeartOp)
    | Shut(down: ShutOp)

  function New(enabled: bool): State
  {
    State(enabled, [], [], false, Free, 0, 0, multiset{}, false, false, if enabled then Looking else Stopped, NotCalled)
  }

  predicate Exists(s: State, c: nat)
  {
    c < |s.recs| == |s.conns|
  }

  predicate NextIn(s: State, list: seq<nat>, next: nat)
  {
    next < |list| && Exists(s, list[next])
  }

  /** `wakeHeartbeatLoop`: the non-blocking send leaves a token in the slot, whether or not there was one. */
  function Woken(s: State): bool
  {
    s.wake || s.enabled
  }

  /** `closeContext` of connection `c`. */
  function Cancelled(conns: seq<C.Conn>, c: nat): seq<C.Conn>
    requires c < |conns|
  {
    conns[c := conns[c].(cancelled := true)]
  }

  // ---- ServeHTTP ----------------------------------------------------------------------

  /** The phase in which a goroutine takes a step. */
  function From(op: ServeOp): Phase
  {
    match op
    case Admit => Created
    case RegistryAdd => Counted
    case CountOnline => Added
    case WakeAndUnlock => Tallied
    case Remove => Serving
    case SubtractOnline => Subtracting
    case WakeAfterRemove => Subtracted
    case CloseContext => Removed
    case Finish => Closed
  }

  predicate ServeEnabled(s: State, c: nat, op: ServeOp)
  {
    && Exists(s, c) && s.recs[c].phase == From(op)
    && (op.Admit? ==> s.lock == Free)
    && (op.Remove? ==> s.conns[c].running == {})
  }

  function ServeRec(r: Rec, op: ServeOp, shuttingDown: bool): Rec
  {
    match op
    case Admit => r.(phase := if shuttingDown then TurnedAway else Counted)
    case RegistryAdd => Rec(Added, true)
    case CountOnline => r.(phase := Tallied)
    case WakeAndUnlock => r.(phase := Serving)
    case Remove => Rec(if r.registered then Subtracting else Removed, false)
    case SubtractOnline => r.(phase := Subtracted)
    case WakeAfterRemove => r.(phase := Removed)
    case CloseContext => r.(phase := Closed)
    case Finish => r.(phase := Finished)
  }

  function ServeLock(lock: Lock, c: nat, op: ServeOp, shuttingDown: bool): Lock
  {
    if op.Admit? && !shuttingDown then HeldBy(c) else if op.WakeAndUnlock? then Free else lock
  }

  function ServeActive(op: ServeOp, shuttingDown: bool): int
  {
    if op.Admit? && !shuttingDown then 1 else if op.Finish? then -1 else 0
  }

  function ServeOnline(op: ServeOp): int
  {
    if op.CountOnline? then 1 else if op.SubtractOnline? then -1 else 0
  }

  function ApplyServe(s: State, c: nat, op: ServeOp): State
    requires ServeEnabled(s, c, op)
  {
    s.(recs := s.recs[c := ServeRec(s.recs[c], op, s.shuttingDown)],
       conns := if op.CloseContext? then Cancelled(s.conns, c) else s.conns,
       lock := ServeLock(s.lock, c, op, s.shuttingDown),
       active := s.active + ServeActive(op, s.shuttingDown),
       online := s.online + ServeOnline(op),
       subtracted := s.subtracted + if op.SubtractOnline? then multiset{c} else multiset{},
       wake := if op.WakeAndUnlock? || op.WakeAfterRemove? then Woken(s) else s.wake)
  }

  // ---- heartbeat loop -----------------------------------------------------------------

  predicate HeartEnabled(s: State, op: HeartOp)
  {
    match op
    case Look => s.heartbeat.Looking?
    case TakeWake => (s.heartbeat.Asleep? || s.heartbeat.Timed?) && s.wake
    case Timer => s.heartbeat.Timed?
    case Evict(c) => s.heartbeat.Sweeping? && Exists(s, c) && s.recs[c].registered
    case EndSweep => s.heartbeat.Sweeping?
    case CloseEvicted => s.heartbeat.ClosingEvicted? && NextIn(s, s.heartbeat.evicted, s.heartbeat.next)
    case WakeAfterSweep => s.heartbeat.ClosingEvicted? && s.heartbeat.next == |s.heartbeat.evicted|
    case StopLoop => (s.heartbeat.Asleep? || s.heartbeat.Timed?) && s.stop
  }

  function HeartNext(s: State, op: HeartOp): Heartbeat
    requires HeartEnabled(s, op)
  {
    match op
    case Look => if exists c :: 0 <= c < |s.recs| && s.recs[c].registered then Timed else Asleep
    case TakeWake => Looking
    case Timer => Sweeping([])
    case Evict(c) => Sweeping(s.heartbeat.evicted + [c])
    case EndSweep => if s.heartbeat.evicted == [] then Looking else ClosingEvicted(s.heartbeat.evicted, 0)
    case CloseEvicted => ClosingEvicted(s.heartbeat.evicted, s.heartbeat.next + 1)
    case WakeAfterSweep => Looking
    case StopLoop => Stopped
  }

  function ApplyHeart(s: State, op: HeartOp): State
    requires HeartEnabled(s, op)
  {
    s.(recs := if op.Evict? then s.recs[op.c := s.recs[op.c].(registered := false)] else s.recs,
       conns := if op.CloseEvicted? then Cancelled(s.conns, s.heartbeat.evicted[s.heartbeat.next]) else s.conns,
       online := if op.EndSweep? then s.online - |s.heartbeat.evicted| else s.online,
       subtracted := if op.EndSweep? then s.subtracted + multiset(s.heartbeat.evicted) else s.subtracted,
       wake := if op.TakeWake? then false else if op.WakeAfterSweep? then Woken(s) else s.wake,
       heartbeat := HeartNext(s, op))
  }

  // ---- shutdown -----------------------------------------------------------------------

  /** `allConnections`: each registered connection once, in some order. */
  ghost predicate IsSnapshot(recs: seq<Rec>, list: seq<nat>)
  {
    && (forall i :: 0 <= i < |list| ==> list[i] < |recs| && recs[list[i]].registered)
    && (forall i, j :: 0 <= i < j < |list| ==> list[i] != list[j])
    && (forall c :: 0 <= c < |recs| && recs[c].registered ==> c in list)
  }

  ghost predicate ShutEnabled(s: State, op: ShutOp)
  {
    var d := s.shutdown;
    match op
    case TellHeartbeat => d.NotCalled?
    case BeginShutdown(list) => d.HeartbeatTold? && s.lock == Free && IsSnapshot(s.recs, list)
    case DrainNext => d.Draining? && NextIn(s, d.list, |d.channels|)
    case UnlockAfterDrain => d.Draining? && |d.channels| == |d.list|
    case WaitNext =>
      && d.Waiting? && NextIn(s, d.list, d.next) && d.next < |d.channels|
      && d.channels[d.next] in s.conns[d.list[d.next]].ops.closes
    case AllDrained => d.Waiting? && d.next == |d.list|
    case WaitTimeout => d.Waiting? && d.next < |d.list|
    case CloseNext => d.Closing? && NextIn(s, d.list, d.next)
    case AllClosed => d.Closing? && d.next == |d.list|
    case HandlersDone => d.AwaitingHandlers? && s.active == 0
    case HandlersTimeout => d.AwaitingHandlers?
  }

  function ShutNext(s: State, op: ShutOp): Shutdown
    requires ShutEnabled(s, op)
  {
    var d := s.shutdown;
    match op
    case TellHeartbeat => HeartbeatTold
    case BeginShutdown(list) => Draining(list, [])
    case DrainNext => Draining(d.list, d.channels + [s.conns[d.list[|d.channels|]].ops.done])
    case UnlockAfterDrain => Waiting(d.list, d.channels, 0)
    case WaitNext => Waiting(d.list, d.channels, d.next + 1)
    case AllDrained => Closing(d.list, true, 0)
    case WaitTimeout => Closing(d.list, false, 0)
    case CloseNext => Closing(d.list, d.ok, d.next + 1)
    case AllClosed => if d.ok then AwaitingHandlers(d.list) else Returned(d.list, false)
    case HandlersDone => Returned(d.list, true)
    case HandlersTimeout => Returned(d.list, false)
  }

  function ShutConns(s: State, op: ShutOp): seq<C.Conn>
    requires ShutEnabled(s, op)
  {
    if op.DrainNext? then
      var c := s.shutdown.list[|s.shutdown.channels|];
      s.conns[c := C.Apply(s.conns[c], C.Drain)]
    else if op.CloseNext? then Cancelled(s.conns, s.shutdown.list[s.shutdown.next])
    else s.conns
  }

  function ApplyShut(s: State, op: ShutOp): State
    requires ShutEnabled(s, op)
  {
    s.(conns := ShutConns(s, op),
       shuttingDown := s.shuttingDown || op.BeginShutdown?,
       lock := if op.BeginShutdown? then HeldByShutdown else if op.UnlockAfterDrain? then Free else s.lock,
       stop := s.stop || op.TellHeartbeat?,
       shutdown := ShutNext(s, op))
  }

  // ---- all together -------------------------------------------------------------------

  ghost predicate Enabled(s: State, st: Step)
  {
    match st
    case Accept(_) => true
    case Inner(c, inner) =>
      // only beginShutdown drains, and only the ServeHTTP goroutine runs handlers, while it serves
      && Exists(s, c) && !inner.Drain? && C.Enabled(s.conns[c], inner)
      && (inner.StartHandler? ==> s.recs[c].phase == Serving)
    case Serve(c, op) => ServeEnabled(s, c, op)
    case Heart(op) => HeartEnabled(s, op)
    case Shut(op) => ShutEnabled(s, op)
  }

  function Apply(s: State, st: Step): State
    requires Enabled(s, st)
  {
    match st
    case Accept(capacity) => s.(recs := s.recs + [Rec(Created, false)], conns := s.conns + [C.New(capacity)])
    case Inner(c, inner) => s.(conns := s.conns[c := C.Apply(s.conns[c], inner)])
    case Serve(c, op) => ApplyServe(s, c, op)
    case Heart(op) => ApplyHeart(s, op)
    case Shut(op) => ApplyShut(s, op)
  }

  ghost predicate IsRun(states: seq<State>, steps: seq<Step>)
  {
    && |states| == |steps| + 1
    && states[0] == New(states[0].enabled)
    && forall k {:trigger steps[k]} :: 0 <= k < |steps| ==>
          Enabled(states[k], steps[k]) && states[k + 1] == Apply(states[k], steps[k])
  }
}
