/**
 The two-phase expiry sweep of the registry (registry.go, `expired`): the scan collects idle entries, then each of
 them is looked at again under its own lock. Any registry operations may run between these steps.
 */
module RegistrySweep {
  import opened Registry
  import opened RegistryObject

  datatype Sweep = Sweep(reg: Reg, pending: seq<Target>, evicted: seq<Conn>)

  datatype Step = Env(op: Op) | Recheck

  /** The scan saw each entry that was idle at that moment, once. */
  ghost predicate IsScan(reg: Reg, deadline: int, pending: seq<Target>)
  {
    && (forall i, j :: 0 <= i < j < |pending| ==> pending[i].key != pending[j].key)
    && (forall i :: 0 <= i < |pending| ==> Evictable(reg, pending[i], deadline))
    && (forall k :: k in reg.connections && reg.connections[k].lastSeen < deadline ==>
          Target(k, reg.connections[k].serial) in pending)
  }

  predicate Enabled(s: Sweep, st: Step)
  {
    match st
    case Env(op) => Fresh(s.reg, op)
    case Recheck => s.pending != []
  }

  function ApplyStep(s: Sweep, st: Step, deadline: int): Sweep
    requires Enabled(s, st)
  {
    match st
    case Env(op) => s.(reg := Apply(s.reg, op))
    case Recheck =>
      var target := s.pending[0];
      Sweep(Evict(s.reg, target, deadline), s.pending[1..],
            s.evicted + if Evictable(s.reg, target, deadline) then [s.reg.connections[target.key].conn] else [])
  }

  ghost predicate IsRun(states: seq<Sweep>, steps: seq<Step>, deadline: int)
  {
    && |states| == |steps| + 1
    && Valid(states[0].reg) && IsScan(states[0].reg, deadline, states[0].pending) && states[0].evicted == []
    && forall k {:trigger steps[k]} :: 0 <= k < |steps| ==>
         Enabled(states[k], steps[k]) && states[k + 1] == ApplyStep(states[k], steps[k], deadline)
  }

  /**
   Between the steps of the sweep anything may happen to the registry, and it does happen; and the sweep can go on.
   */
  lemma SweepGoesOn(s: Sweep, op: Op, deadline: int)
    ensures Fresh(s.reg, op) ==>
              Enabled(s, Env(op)) && ApplyStep(s, Env(op), deadline) == Sweep(Apply(s.reg, op), s.pending, s.evicted)
    ensures s.pending != [] ==> Enabled(s, Recheck) && |ApplyStep(s, Recheck, deadline).pending| == |s.pending| - 1
  {
  }

  /** Nothing is both reported and still to be looked at, and nothing is reported twice. */
  ghost predicate SweepInv(s: Sweep)
  {
    && Valid(s.reg)
    && Distinct(s.evicted)
    && (forall i, j :: 0 <= i < j < |s.pending| ==> s.pending[i].key != s.pending[j].key)
    && (forall c, i :: c in s.evicted && 0 <= i < |s.pending| ==> Key(c) != s.pending[i].key)
  }

  lemma StepKeepsInv(s: Sweep, st: Step, deadline: int)
    requires SweepInv(s) && Enabled(s, st)
    ensures SweepInv(ApplyStep(s, st, deadline))
  {
    match st
    case Env(op) => ApplyKeepsValid(s.reg, op);
    case Recheck =>
      var target := s.pending[0];
      EvictKeepsValid(s.reg, target, deadline);
      if Evictable(s.reg, target, deadline) {
        DistinctAppend(s.evicted, s.reg.connections[target.key].conn);
      }
  }

  /** Two-phase expiry: both indexes agree after every step, and no connection is reported twice. */
  lemma {:induction false} SweepAgrees(states: seq<Sweep>, steps: seq<Step>, deadline: int, k: nat)
    requires IsRun(states, steps, deadline) && k < |states|
    ensures SweepInv(states[k])
  {
    if k > 0 {
      SweepAgrees(states, steps, deadline, k - 1);
      StepKeepsInv(states[k - 1], steps[k - 1], deadline);
    }
  }

  /**
   Every reported connection was registered and idle when it was looked at again, and left the registry in that step.
   */
  lemma {:induction false} EvictedWasIdle(states: seq<Sweep>, steps: seq<Step>, deadline: int, k: nat, c: Conn)
    returns (j: nat)
    requires IsRun(states, steps, deadline) && k < |states| && c in states[k].evicted
    ensures j < k && steps[j] == Recheck && states[j].pending != []
    ensures Holds(states[j].reg, c)
    ensures Evictable(states[j].reg, Target(Key(c), states[j].reg.connections[Key(c)].serial), deadline)
    ensures states[j].pending[0] == Target(Key(c), states[j].reg.connections[Key(c)].serial)
    ensures states[j + 1].reg.connections == states[j].reg.connections - {Key(c)}
  {
    if c in states[k - 1].evicted {
      j := EvictedWasIdle(states, steps, deadline, k - 1, c);
    } else {
      j := k - 1;
      SweepAgrees(states, steps, deadline, j);
    }
  }

  /** The pending targets are always a tail of the scan. */
  lemma {:induction false} PendingIsTail(states: seq<Sweep>, steps: seq<Step>, deadline: int, k: nat)
    requires IsRun(states, steps, deadline) && k < |states|
    ensures |states[k].pending| <= |states[0].pending|
    ensures states[k].pending == states[0].pending[|states[0].pending| - |states[k].pending|..]
  {
    if k > 0 {
      PendingIsTail(states, steps, deadline, k - 1);
      assert states[k] == ApplyStep(states[k - 1], steps[k - 1], deadline);
    }
  }

  /** Every scanned entry is looked at again: once the sweep is past it, some step was its re-check. */
  lemma {:induction false} EveryTargetIsRechecked(states: seq<Sweep>, steps: seq<Step>, deadline: int, k: nat, i: nat)
    returns (j: nat)
    requires IsRun(states, steps, deadline) && k < |states|
    requires i < |states[0].pending| && i + |states[k].pending| < |states[0].pending|
    ensures j < k && steps[j] == Recheck && states[j].pending != [] && states[j].pending[0] == states[0].pending[i]
  {
    PendingIsTail(states, steps, deadline, k - 1);
    if i + |states[k - 1].pending| < |states[0].pending| {
      j := EveryTargetIsRechecked(states, steps, deadline, k - 1, i);
    } else {
      j := k - 1;
      assert steps[j] == Recheck;
    }
  }

  lemma {:induction false} EvictedGrows(states: seq<Sweep>, steps: seq<Step>, deadline: int, j: nat, k: nat)
    requires IsRun(states, steps, deadline) && j <= k < |states|
    ensures states[j].evicted <= states[k].evicted
    decreases k
  {
    if j < k {
      EvictedGrows(states, steps, deadline, j, k - 1);
      assert states[k] == ApplyStep(states[k - 1], steps[k - 1], deadline);
    }
  }

  /**
   What becomes of a scanned entry: at its re-check it is either still current and idle, and then its connection is
   reported, or it was touched in time, replaced or removed meanwhile, and then the registry is left alone.
   */
  lemma SweepOutcome(states: seq<Sweep>, steps: seq<Step>, deadline: int, k: nat, i: nat) returns (j: nat)
    requires IsRun(states, steps, deadline) && k < |states| && states[k].pending == []
    requires i < |states[0].pending|
    ensures j < k && steps[j] == Recheck && states[j].pending != [] && states[j].pending[0] == states[0].pending[i]
    ensures var target, reg := states[0].pending[i], states[j].reg;
            if Evictable(reg, target, deadline)
            then reg.connections[target.key].conn in states[k].evicted && target.key !in states[j + 1].reg.connections
            else states[j + 1].reg == reg && states[j + 1].evicted == states[j].evicted
  {
    j := EveryTargetIsRechecked(states, steps, deadline, k, i);
    assert states[j + 1] == ApplyStep(states[j], steps[j], deadline);
    EvictedGrows(states, steps, deadline, j + 1, k);
    var target := states[0].pending[i];
    if Evictable(states[j].reg, target, deadline) {
      var c := states[j].reg.connections[target.key].conn;
      assert states[j + 1].evicted[|states[j].evicted|] == c;
      assert states[k].evicted[|states[j].evicted|] == c;
    }
  }

  /**
   Every entry that was idle at the scan is looked at again, and leaves the registry then if it is still idle and
   current.
   */
  lemma IdleEntryOutcome(states: seq<Sweep>, steps: seq<Step>, deadline: int, k: nat, key: string) returns (j: nat)
    requires IsRun(states, steps, deadline) && k < |states| && states[k].pending == []
    requires key in states[0].reg.connections && states[0].reg.connections[key].lastSeen < deadline
    ensures j < k && steps[j] == Recheck
    ensures var entry, reg := states[0].reg.connections[key], states[j].reg;
            if key in reg.connections && reg.connections[key].serial == entry.serial
               && reg.connections[key].lastSeen < deadline
            then reg.connections[key].conn in states[k].evicted && key !in states[j + 1].reg.connections
            else states[j + 1].reg == reg && states[j + 1].evicted == states[j].evicted
  {
    var target := Target(key, states[0].reg.connections[key].serial);
    assert target in states[0].pending;
    var i :| 0 <= i < |states[0].pending| && states[0].pending[i] == target;
    j := SweepOutcome(states, steps, deadline, k, i);
  }

  /**
   A touch between the scan and the re-check saves exactly the entry touched, if it comes at the deadline or later.
   */
  lemma TouchSaves(reg: Reg, c: Conn, now: int, target: Target, deadline: int)
    requires Valid(reg) && Holds(reg, c) && Evictable(reg, target, deadline)
    ensures Evictable(Touch(reg, c, now), target, deadline) <==> target.key != Key(c) || now < deadline
  {
    if target.key != Key(c) {
      assert Touch(reg, c, now).connections[target.key] == reg.connections[target.key];
    }
  }
}
