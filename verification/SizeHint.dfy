/**
 The adaptive buffer-size hint of a connection (connection.go, `encodedFrameBufferSize` and
 `observeEncodedPayloadSize`): it jumps up to a larger sample at once and decays by an eighth of
 the distance towards a smaller one. Observers race on the hint with compare-and-swap.
 */
module SizeHint {
  import opened Sums

  const DEFAULT_HINT := 128
  const HEADROOM_DIVISOR := 8
  const DECAY_DIVISOR := 8

  function Floored(size: nat): nat
  {
    if size < DEFAULT_HINT then DEFAULT_HINT else size
  }

  /** The hint after one observation; `0` is the hint of a connection that has observed nothing. */
  function Observe(hint: nat, size: nat): (next: nat)
  {
    var sample := Floored(size);
    if hint > 0 && sample < hint then hint - (hint - sample) / DECAY_DIVISOR else sample
  }

  /** The hint after a sequence of observations. */
  function Hint(samples: seq<nat>): nat
  {
    if samples == [] then 0 else Observe(Hint(samples[..|samples| - 1]), samples[|samples| - 1])
  }

  function BufferSize(hint: nat, prefixLen: nat, maxPayloadSize: nat): nat
  {
    var bodyHint := if hint > 0 then hint else DEFAULT_HINT;
    var padded := bodyHint + bodyHint / HEADROOM_DIVISOR;
    prefixLen + if maxPayloadSize > 0 && padded > maxPayloadSize then maxPayloadSize else padded
  }

  /** After any observations the hint covers the last one and the floor, and is no larger than some sample. */
  lemma {:induction false} HintBounds(samples: seq<nat>)
    requires samples != []
    ensures Floored(samples[|samples| - 1]) <= Hint(samples)
    ensures exists i :: 0 <= i < |samples| && Hint(samples) <= Floored(samples[i])
  {
    var last := |samples| - 1;
    var before := samples[..last];
    if before == [] || Hint(before) <= Floored(samples[last]) {
      assert Hint(samples) <= Floored(samples[last]);
    } else {
      HintBounds(before);
      var i :| 0 <= i < |before| && Hint(before) <= Floored(before[i]);
      assert before[i] == samples[i];
    }
  }

  /** Repeating one size `times` more times after some observations. */
  function Repeated(hint: nat, size: nat, times: nat): nat
  {
    if times == 0 then hint else Observe(Repeated(hint, size, times - 1), size)
  }

  /**
   Repeating one sample brings any hint to it. A hint that is not above the sample, like that of a new connection, is
   at the sample from the first time on; a higher one falls, strictly until it is within 7, where it stays, so the gap
   closes after at most as many steps as it is wide.
   */
  lemma {:induction false} RepeatsConverge(hint: nat, size: nat, times: nat)
    requires times > 0
    ensures hint <= Floored(size) ==> Repeated(hint, size, times) == Floored(size)
    ensures hint > Floored(size) ==> Floored(size) <= Repeated(hint, size, times) <= hint
    ensures Repeated(hint, size, times - 1) > Floored(size) + 7
            ==> Repeated(hint, size, times) < Repeated(hint, size, times - 1)
    ensures Floored(size) <= Repeated(hint, size, times - 1) <= Floored(size) + 7
            ==> Repeated(hint, size, times) == Repeated(hint, size, times - 1)
    ensures times >= hint - Floored(size) ==> Repeated(hint, size, times) <= Floored(size) + 7
    ensures Repeated(hint, size, times) <= Floored(size) + 7 || Repeated(hint, size, times) + times <= hint
  {
    if times > 1 {
      RepeatsConverge(hint, size, times - 1);
    } else {
      assert Repeated(hint, size, 0) == hint;
    }
  }

  /**
   A buffer asked for right after a legal body was observed holds a body an eighth larger, or the largest legal one.
   */
  lemma NextBufferFits(samples: seq<nat>, prefixLen: nat, maxPayloadSize: nat)
    requires samples != [] && maxPayloadSize > 0
    requires samples[|samples| - 1] <= maxPayloadSize
    ensures var n, size := samples[|samples| - 1], BufferSize(Hint(samples), prefixLen, maxPayloadSize);
            && prefixLen + n <= size <= prefixLen + maxPayloadSize
            && (size == prefixLen + maxPayloadSize || prefixLen + n + n / 8 <= size)
  {
    HintBounds(samples);
  }

  /**
   In plain numbers: the floor is 128, and a hint above the sample falls by an eighth of the distance, rounded down.
   */
  lemma ObserveExactly(hint: nat, size: nat)
    ensures var sample := if size < 128 then 128 else size;
            var next := Observe(hint, size);
            if hint <= sample then next == sample
            else sample <= next <= hint && 8 * (hint - next) <= hint - sample < 8 * (hint - next) + 8
  {
  }

  /**
   In plain numbers: room for the prefix and for an eighth more than the hint, rounded down, where no hint counts as
   128; but never for more than the largest legal body, if there is a limit.
   */
  lemma BufferSizeExactly(hint: nat, prefixLen: nat, maxPayloadSize: nat)
    ensures var base := if hint == 0 then 128 else hint;
            var body := BufferSize(hint, prefixLen, maxPayloadSize) - prefixLen;
            if maxPayloadSize > 0 && 8 * maxPayloadSize < 9 * base - 7 then body == maxPayloadSize
            else 9 * base - 7 <= 8 * body <= 9 * base || body == maxPayloadSize > 0
    ensures maxPayloadSize > 0 ==> BufferSize(hint, prefixLen, maxPayloadSize) <= prefixLen + maxPayloadSize
    ensures BufferSize(hint, prefixLen, maxPayloadSize) <= prefixLen + (if hint == 0 then 144 else hint + hint / 8)
  {
  }

  // ---- racing observers ---------------------------------------------------------------

  /** An observer has its sample, and may have loaded a current value it will compare against. */
  datatype Observer = Idle | Sampling(size: nat) | Loaded(size: nat, current: nat)

  /** `started` records the samples observed, and `applied`, in order, those whose compare-and-swap succeeded. */
  datatype Race = Race(hint: nat, observers: seq<Observer>, started: multiset<nat>, applied: seq<nat>)

  datatype Step = Start(i: nat, size: nat) | Load(i: nat) | Swap(i: nat)

  predicate Enabled(r: Race, s: Step)
  {
    match s
    case Start(i, _) => i < |r.observers| && r.observers[i].Idle?
    case Load(i) => i < |r.observers| && r.observers[i].Sampling?
    case Swap(i) => i < |r.observers| && r.observers[i].Loaded?
  }

  function Apply(r: Race, s: Step): Race
    requires Enabled(r, s)
  {
    match s
    case Start(i, size) => r.(observers := r.observers[i := Sampling(size)], started := r.started + multiset{size})
    case Load(i) => r.(observers := r.observers[i := Loaded(r.observers[i].size, r.hint)])
    case Swap(i) =>
      var o := r.observers[i];
      if r.hint == o.current then
        r.(hint := Observe(o.current, o.size), observers := r.observers[i := Idle], applied := r.applied + [o.size])
      else
        r.(observers := r.observers[i := Sampling(o.size)])
  }

  predicate IsRun(states: seq<Race>, steps: seq<Step>)
  {
    && |states| == |steps| + 1
    && states[0].hint == 0 && states[0].started == multiset{} && states[0].applied == []
    && (forall o :: o in states[0].observers ==> o.Idle?)
    && forall k :: 0 <= k < |steps| ==> Enabled(states[k], steps[k]) && states[k + 1] == Apply(states[k], steps[k])
  }

  /**
   However the observers interleave, the hint is the one a single observer would have computed from
   the applied samples: none is counted against a stale value.
   */
  lemma {:induction false} RaceIsSequential(states: seq<Race>, steps: seq<Step>, k: nat)
    requires IsRun(states, steps) && k < |states|
    ensures states[k].hint == Hint(states[k].applied)
  {
    if k > 0 {
      RaceIsSequential(states, steps, k - 1);
      var r := states[k - 1];
      if steps[k - 1].Swap? && r.hint == r.observers[steps[k - 1].i].current {
        var size := r.observers[steps[k - 1].i].size;
        assert (r.applied + [size])[..|r.applied|] == r.applied;
      }
    }
  }

  function InFlight(size: nat): Observer -> int
  {
    (o: Observer) => One(!o.Idle? && o.size == size)
  }

  lemma StepConserves(r: Race, s: Step, size: nat)
    requires Enabled(r, s)
    requires multiset(r.applied)[size] + Sum(InFlight(size), r.observers) == r.started[size]
    ensures var t := Apply(r, s);
            multiset(t.applied)[size] + Sum(InFlight(size), t.observers) == t.started[size]
  {
    SumUpdate(InFlight(size), r.observers, s.i, Apply(r, s).observers[s.i]);
  }

  /** No observation is lost or applied twice: each one started is either still with its observer or applied once. */
  lemma {:induction false} ObservationsConserved(states: seq<Race>, steps: seq<Step>, k: nat, size: nat)
    requires IsRun(states, steps) && k < |states|
    ensures multiset(states[k].applied)[size] + Sum(InFlight(size), states[k].observers) == states[k].started[size]
  {
    if k == 0 {
      SumOfSame(InFlight(size), states[0].observers, 0);
    } else {
      ObservationsConserved(states, steps, k - 1, size);
      StepConserves(states[k - 1], steps[k - 1], size);
    }
  }

  /** When every observer is done, the hint is the sequential hint of all the samples observed, in some order. */
  lemma RaceOutcome(states: seq<Race>, steps: seq<Step>, k: nat)
    requires IsRun(states, steps) && k < |states|
    requires forall o :: o in states[k].observers ==> o.Idle?
    ensures states[k].hint == Hint(states[k].applied) && multiset(states[k].applied) == states[k].started
  {
    RaceIsSequential(states, steps, k);
    forall size: nat ensures multiset(states[k].applied)[size] == states[k].started[size] {
      ObservationsConserved(states, steps, k, size);
      SumOfSame(InFlight(size), states[k].observers, 0);
    }
  }

  /** A load sees the hint of its moment, and a swap applies the sample exactly if that is still the hint. */
  lemma SwapDecides(states: seq<Race>, steps: seq<Step>, k: nat)
    requires IsRun(states, steps) && k < |steps|
    ensures var r, t, i := states[k], states[k + 1], steps[k].i;
            && i < |r.observers| == |t.observers|
            && (forall j :: 0 <= j < |r.observers| && j != i ==> t.observers[j] == r.observers[j])
            && match steps[k]
               case Start(_, size) => r.observers[i].Idle? && t.observers[i] == Sampling(size) && t.hint == r.hint
               case Load(_) =>
                 && r.observers[i].Sampling? && t.observers[i] == Loaded(r.observers[i].size, r.hint)
                 && t.hint == r.hint
               case Swap(_) =>
                 && r.observers[i].Loaded?
                 && if r.hint == r.observers[i].current
                    then t.hint == Observe(r.hint, r.observers[i].size) && t.observers[i].Idle?
                    else t.hint == r.hint && t.observers[i] == Sampling(r.observers[i].size)
  {
  }

  /**
   The race never stands still: the hint changes only by a swap that applies its sample, so one that fails owes it to
   another that succeeded.
   */
  lemma {:induction false} SomebodyApplied(states: seq<Race>, steps: seq<Step>, j: nat, k: nat)
    requires IsRun(states, steps) && j <= k < |states|
    ensures |states[j].applied| <= |states[k].applied|
    ensures states[k].hint != states[j].hint ==> |states[j].applied| < |states[k].applied|
    decreases k
  {
    if j < k {
      SomebodyApplied(states, steps, j, k - 1);
      assert Enabled(states[k - 1], steps[k - 1]) && states[k] == Apply(states[k - 1], steps[k - 1]);
    }
  }

  /** An observer can always go on. */
  lemma ObserverGoesOn(r: Race, i: nat, size: nat) returns (s: Step)
    requires i < |r.observers|
    ensures Enabled(r, s) && s.i == i && (r.observers[i].Idle? ==> s == Start(i, size))
  {
    s := match r.observers[i]
      case Idle => Start(i, size)
      case Sampling(_) => Load(i)
      case Loaded(_, _) => Swap(i);
  }

  // ---- the field and its loop ---------------------------------------------------------

  /**
   The first value that is still in the field when it is compared, if the field holds `current` and then changes so.
   */
  function Settled(current: nat, interference: seq<nat>): nat
    decreases |interference|
  {
    if interference == [] || interference[0] == current then current
    else Settled(interference[0], interference[1..])
  }

  class EncodedPayloadHint {
    var hint: nat

    constructor ()
      ensures hint == 0
    {
      hint := 0;
    }

    /**
     `observeEncodedPayloadSize`. `interference[k]` is what the other observers leave in the field between
     the load and the compare-and-swap of the k-th attempt; after those attempts nobody interferes.
     */
    method ObserveEncodedPayloadSize(size: nat, interference: seq<nat>) returns (seen: nat)
      modifies this
      ensures seen == Settled(old(hint), interference) && hint == Observe(seen, size)
      ensures interference == [] ==> seen == old(hint)
    {
      var sample := if size < DEFAULT_HINT then DEFAULT_HINT else size;
      var attempt := 0;
      while true
        invariant 0 <= attempt <= |interference|
        invariant Settled(hint, interference[attempt..]) == Settled(old(hint), interference)
        decreases |interference| - attempt
      {
        var current := hint;
        var next := sample;
        if current > 0 && sample < current {
          next := current - (current - sample) / DECAY_DIVISOR;
        }
        if attempt < |interference| {
          hint := interference[attempt];
          attempt := attempt + 1;
          assert interference[attempt - 1..][1..] == interference[attempt..];
        }
        if hint == current {
          hint := next;
          return current;
        }
      }
    }
  }
}
