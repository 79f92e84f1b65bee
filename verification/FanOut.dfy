/**
 The batch worker pools of batch_send.go and batch_close.go: a producer goroutine feeding connections over an
 unbuffered channel, some workers acting on them, a collector counting results from a buffered channel.
 In a batch close (`closing`) the producer and the workers report a connection unacted on once the caller's
 context is done.
 */
module FanOut {
  import opened Sums

  datatype Err = NoError | SomeError(text: string)

  /**
   A result on the `results` channel. The Go code sends the error alone; the connection is kept to be able to count.
   */
  datatype Report = Report(c: nat, acted: bool, err: Err)

  datatype Worker =
    | Idle                       // receiving from jobs
    | Holding(c: nat)
    | Reporting(report: Report)  // sending to results
    | Gone                       // jobs closed, wg.Done() called

  datatype Producer =
    | Feeding(next: nat)
    | Emitting(next: nat)        // saw the context done, sends its error to results instead of a job
    | JobsClosed                 // in wg.Wait()
    | ResultsClosed

  datatype State = State(
    n: nat,                      // connections 0..n-1
    closing: bool,
    ctxDone: bool,
    workers: seq<Worker>,
    wg: int,
    producer: Producer,
    buffer: seq<Report>,         // of capacity |workers|
    collected: seq<Report>,
    acted: multiset<nat>,        // history: connections that were sent to or closed
    returned: bool)              // the collector has returned, releasing the pooled slice

  datatype Step =
    | CtxDone
    | Hand(w: nat)
    | Skip
    | Emit
    | CloseJobs
    | Act(w: nat, err: Err)
    | SendResult(w: nat)
    | Quit(w: nat)
    | CloseResults
    | Collect
    | Return

  const DEFAULT_SEND_CONCURRENCY := 256

  function NormalizeSendConcurrency(n: int): nat
  {
    if n <= 0 then DEFAULT_SEND_CONCURRENCY else n
  }

  /** The number of workers that are started. */
  function Workers(concurrency: int, n: nat): nat
  {
    if NormalizeSendConcurrency(concurrency) > n then n else NormalizeSendConcurrency(concurrency)
  }

  /** With no connection at all the function returns before starting anything. */
  function New(n: nat, concurrency: int, closing: bool, ctxDone: bool): State
  {
    var workers := seq(Workers(concurrency, n), _ => Idle);
    var producer := if n == 0 then ResultsClosed else Feeding(0);
    State(n, closing, ctxDone, workers, |workers|, producer, [], [], multiset{}, n == 0)
  }

  predicate WorkerAt(s: State, w: nat)
  {
    w < |s.workers|
  }

  predicate Room(s: State)
  {
    |s.buffer| < |s.workers|
  }

  predicate Enabled(s: State, st: Step)
  {
    match st
    case CtxDone => !s.ctxDone
    case Hand(w) => s.producer.Feeding? && s.producer.next < s.n && WorkerAt(s, w) && s.workers[w].Idle?
    case Skip => s.closing && s.ctxDone && s.producer.Feeding? && s.producer.next < s.n
    case Emit => s.producer.Emitting? && Room(s)
    case CloseJobs => s.producer.Feeding? && s.producer.next == s.n
    case Act(w, _) => WorkerAt(s, w) && s.workers[w].Holding?
    case SendResult(w) => WorkerAt(s, w) && s.workers[w].Reporting? && Room(s)
    case Quit(w) => WorkerAt(s, w) && s.workers[w].Idle? && (s.producer.JobsClosed? || s.producer.ResultsClosed?)
    case CloseResults => s.producer.JobsClosed? && s.wg == 0
    case Collect => !s.returned && s.buffer != []
    case Return => !s.returned && s.producer.ResultsClosed? && s.buffer == []
  }

  /** What a worker reports: in a batch close it looks at the context first. */
  function Outcome(s: State, c: nat, err: Err): Report
  {
    if s.closing && s.ctxDone then Report(c, false, SomeError("context done")) else Report(c, true, err)
  }

  function Apply(s: State, st: Step): State
    requires Enabled(s, st)
  {
    match st
    case CtxDone => s.(ctxDone := true)
    case Hand(w) => s.(workers := s.workers[w := Holding(s.producer.next)], producer := Feeding(s.producer.next + 1))
    case Skip => s.(producer := Emitting(s.producer.next))
    case Emit =>
      s.(producer := Feeding(s.producer.next + 1),
         buffer := s.buffer + [Report(s.producer.next, false, SomeError("context done"))])
    case CloseJobs => s.(producer := JobsClosed)
    case Act(w, err) =>
      var report := Outcome(s, s.workers[w].c, err);
      s.(workers := s.workers[w := Reporting(report)],
         acted := s.acted + if report.acted then multiset{report.c} else multiset{})
    case SendResult(w) => s.(workers := s.workers[w := Idle], buffer := s.buffer + [s.workers[w].report])
    case Quit(w) => s.(workers := s.workers[w := Gone], wg := s.wg - 1)
    case CloseResults => s.(producer := ResultsClosed)
    case Collect => s.(buffer := s.buffer[1..], collected := s.collected + [s.buffer[0]])
    case Return => s.(returned := true)
  }

  ghost predicate IsRun(states: seq<State>, steps: seq<Step>, concurrency: int)
  {
    && |states| == |steps| + 1
    && states[0] == New(states[0].n, concurrency, states[0].closing, states[0].ctxDone)
    && forall k {:trigger steps[k]} :: 0 <= k < |steps| ==>
          Enabled(states[k], steps[k]) && states[k + 1] == Apply(states[k], steps[k])
  }

  /** As many workers as configured, or 256 by default, but no more than there are connections. */
  lemma WorkersStarted(n: nat, concurrency: int, closing: bool, ctxDone: bool)
    ensures var wanted := if concurrency <= 0 then 256 else concurrency;
            |New(n, concurrency, closing, ctxDone).workers| == if n < wanted then n else wanted
  {
  }

  // ---- conservation -------------------------------------------------------------------

  function Reports(c: nat): Report -> int
  {
    (r: Report) => One(r.c == c)
  }

  function ReportsActed(c: nat): Report -> int
  {
    (r: Report) => One(r.c == c && r.acted)
  }

  function Holds(c: nat): Worker -> int
  {
    (w: Worker) => One((w.Holding? && w.c == c) || (w.Reporting? && w.report.c == c))
  }

  function HoldsActed(c: nat): Worker -> int
  {
    (w: Worker) => One(w.Reporting? && w.report.c == c && w.report.acted)
  }

  function Busy(w: Worker): int
  {
    One(w.Holding? || w.Reporting?)
  }

  function Alive(w: Worker): int
  {
    One(!w.Gone?)
  }

  /** The first connection the producer has not dealt with. */
  function Next(s: State): nat
  {
    if s.producer.Feeding? || s.producer.Emitting? then s.producer.next else s.n
  }

  /** In how many places connection `c` is: with the producer, a worker, the results channel or the collector. */
  ghost function Places(s: State, c: nat): int
  {
    One(Next(s) <= c < s.n) + Sum(Holds(c), s.workers) + Sum(Reports(c), s.buffer) + Sum(Reports(c), s.collected)
  }

  /** How often `c` is reported as acted on. */
  ghost function ActedPlaces(s: State, c: nat): int
  {
    Sum(HoldsActed(c), s.workers) + Sum(ReportsActed(c), s.buffer) + Sum(ReportsActed(c), s.collected)
  }

  /**
   Every connection is in exactly one place, what was acted on is what is reported as acted on, and nothing is lost.
   */
  ghost predicate Conserved(s: State)
  {
    && (forall c: nat :: Places(s, c) == One(c < s.n) && ActedPlaces(s, c) == s.acted[c])
    && s.n - Next(s) + Sum(Busy, s.workers) + |s.buffer| + |s.collected| == s.n
  }

  ghost predicate PhaseInv(s: State)
  {
    && s.wg == Sum(Alive, s.workers)
    && |s.buffer| <= |s.workers|
    && (s.n > 0 ==> |s.workers| > 0)
    && (s.producer.Feeding? ==> s.producer.next <= s.n)
    && (s.producer.Emitting? ==> s.producer.next < s.n && s.closing)
    && (s.producer.Feeding? || s.producer.Emitting? ==> forall w :: 0 <= w < |s.workers| ==> !s.workers[w].Gone?)
    && (s.producer.ResultsClosed? ==> forall w :: 0 <= w < |s.workers| ==> s.workers[w].Gone?)
    && (s.returned ==> s.producer.ResultsClosed? && s.buffer == [])
  }

  ghost predicate Inv(s: State)
  {
    Conserved(s) && PhaseInv(s)
  }

  lemma NewInv(n: nat, concurrency: int, closing: bool, ctxDone: bool)
    ensures Inv(New(n, concurrency, closing, ctxDone))
  {
    var s := New(n, concurrency, closing, ctxDone);
    SumOfSame(Alive, s.workers, 1);
    SumOfSame(Busy, s.workers, 0);
    forall c: nat ensures Places(s, c) == One(c < s.n) && ActedPlaces(s, c) == s.acted[c] {
      SumOfSame(Holds(c), s.workers, 0);
      SumOfSame(HoldsActed(c), s.workers, 0);
    }
  }

  /** How one weight over the workers changes. */
  lemma WorkerSum(s: State, st: Step, weight: Worker -> int)
    requires Enabled(s, st)
    ensures Sum(weight, Apply(s, st).workers) == Sum(weight, s.workers) +
            match st
            case Hand(w) => weight(Apply(s, st).workers[w]) - weight(Idle)
            case Act(w, _) => weight(Apply(s, st).workers[w]) - weight(s.workers[w])
            case SendResult(w) => weight(Idle) - weight(s.workers[w])
            case Quit(w) => weight(Gone) - weight(Idle)
            case _ => 0
  {
    match st
    case Hand(w) => SumUpdate(weight, s.workers, w, Apply(s, st).workers[w]);
    case Act(w, _) => SumUpdate(weight, s.workers, w, Apply(s, st).workers[w]);
    case SendResult(w) => SumUpdate(weight, s.workers, w, Idle);
    case Quit(w) => SumUpdate(weight, s.workers, w, Gone);
    case _ =>
  }

  /** How one weight over the results, in the channel and collected, changes. */
  lemma ReportSum(s: State, st: Step, weight: Report -> int)
    requires Enabled(s, st)
    ensures Sum(weight, Apply(s, st).buffer) + Sum(weight, Apply(s, st).collected) ==
              Sum(weight, s.buffer) + Sum(weight, s.collected) +
            match st
            case Emit => weight(Apply(s, st).buffer[|s.buffer|])
            case SendResult(w) => weight(s.workers[w].report)
            case _ => 0
  {
    match st
    case Emit => SumAppend(weight, s.buffer, Apply(s, st).buffer[|s.buffer|]);
    case SendResult(w) => SumAppend(weight, s.buffer, s.workers[w].report);
    case Collect =>
      SumTail(weight, s.buffer);
      SumAppend(weight, s.collected, s.buffer[0]);
    case _ =>
  }

  lemma KeepsPlaces(s: State, st: Step, c: nat)
    requires Places(s, c) == One(c < s.n) && PhaseInv(s) && Enabled(s, st)
    ensures Places(Apply(s, st), c) == One(c < s.n)
  {
    WorkerSum(s, st, Holds(c));
    ReportSum(s, st, Reports(c));
  }

  lemma KeepsActedPlaces(s: State, st: Step, c: nat)
    requires ActedPlaces(s, c) == s.acted[c] && Enabled(s, st)
    ensures ActedPlaces(Apply(s, st), c) == Apply(s, st).acted[c]
  {
    WorkerSum(s, st, HoldsActed(c));
    ReportSum(s, st, ReportsActed(c));
  }

  lemma KeepsTotal(s: State, st: Step)
    requires s.n - Next(s) + Sum(Busy, s.workers) + |s.buffer| + |s.collected| == s.n && Enabled(s, st)
    ensures var t := Apply(s, st); t.n - Next(t) + Sum(Busy, t.workers) + |t.buffer| + |t.collected| == t.n
  {
    WorkerSum(s, st, Busy);
  }

  lemma KeepsConserved(s: State, st: Step)
    requires Inv(s) && Enabled(s, st)
    ensures Conserved(Apply(s, st))
  {
    forall c: nat
      ensures Places(Apply(s, st), c) == One(c < s.n) && ActedPlaces(Apply(s, st), c) == Apply(s, st).acted[c]
    {
      KeepsPlaces(s, st, c);
      KeepsActedPlaces(s, st, c);
    }
    KeepsTotal(s, st);
  }

  lemma KeepsPhases(s: State, st: Step)
    requires PhaseInv(s) && Enabled(s, st)
    ensures PhaseInv(Apply(s, st))
  {
    WorkerSum(s, st, Alive);
    SumBounds(Alive, s.workers);
    if st.CloseResults? {
      forall w | 0 <= w < |s.workers| ensures s.workers[w].Gone? {
        assert Alive(s.workers[w]) <= 0;
      }
    }
  }

  lemma {:induction false} RunPhases(states: seq<State>, steps: seq<Step>, concurrency: int, k: nat)
    requires IsRun(states, steps, concurrency) && k < |states|
    ensures PhaseInv(states[k])
  {
    if k == 0 {
      NewInv(states[0].n, concurrency, states[0].closing, states[0].ctxDone);
    } else {
      RunPhases(states, steps, concurrency, k - 1);
      KeepsPhases(states[k - 1], steps[k - 1]);
    }
  }

  lemma {:induction false} RunInv(states: seq<State>, steps: seq<Step>, concurrency: int, k: nat)
    requires IsRun(states, steps, concurrency) && k < |states|
    ensures Inv(states[k]) && states[k].n == states[0].n
  {
    if k == 0 {
      NewInv(states[0].n, concurrency, states[0].closing, states[0].ctxDone);
    } else {
      RunInv(states, steps, concurrency, k - 1);
      KeepsConserved(states[k - 1], steps[k - 1]);
      KeepsPhases(states[k - 1], steps[k - 1]);
    }
  }

  // ---- the theorems -------------------------------------------------------------------

  predicate SendsResult(st: Step)
  {
    st.Emit? || st.SendResult?
  }

  /**
   Nothing is sent on a closed `results`, and the pooled slice is released only when producer and workers are through.
   */
  lemma NoSendOnClosedChannel(states: seq<State>, steps: seq<Step>, concurrency: int, k: nat)
    requires IsRun(states, steps, concurrency) && k < |states|
    ensures k < |steps| && SendsResult(steps[k]) ==> !states[k].producer.ResultsClosed?
    ensures states[k].returned ==>
              && states[k].producer.ResultsClosed?
              && forall w :: 0 <= w < |states[k].workers| ==> states[k].workers[w].Gone?
  {
    RunInv(states, steps, concurrency, k);
  }

  /**
   When the collector returns, each connection has yielded exactly one result, and was acted on exactly as often as it
   says.
   */
  lemma OneResultEach(states: seq<State>, steps: seq<Step>, concurrency: int, k: nat)
    requires IsRun(states, steps, concurrency) && k < |states| && states[k].returned
    ensures forall c: nat :: Sum(Reports(c), states[k].collected) == One(c < states[0].n)
    ensures forall c: nat :: Sum(ReportsActed(c), states[k].collected) == states[k].acted[c]
    ensures |states[k].collected| == states[0].n
  {
    RunInv(states, steps, concurrency, k);
    var s := states[k];
    SumOfSame(Busy, s.workers, 0);
    forall c: nat
      ensures Sum(Reports(c), s.collected) == One(c < s.n) && Sum(ReportsActed(c), s.collected) == s.acted[c]
    {
      SumOfSame(Holds(c), s.workers, 0);
      SumOfSame(HoldsActed(c), s.workers, 0);
      assert Places(s, c) == One(c < s.n) && ActedPlaces(s, c) == s.acted[c];
    }
  }

  ghost predicate AllActed(s: State)
  {
    && (forall i :: 0 <= i < |s.buffer| ==> s.buffer[i].acted)
    && (forall i :: 0 <= i < |s.collected| ==> s.collected[i].acted)
    && (forall w :: 0 <= w < |s.workers| && s.workers[w].Reporting? ==> s.workers[w].report.acted)
  }

  lemma StepKeepsAttempts(s: State, st: Step)
    requires Enabled(s, st)
    ensures s.ctxDone ==> Apply(s, st).ctxDone
    ensures Apply(s, st).closing == s.closing
    ensures AllActed(s) && !s.producer.Emitting? && (!s.closing || !s.ctxDone) ==>
              AllActed(Apply(s, st)) && !Apply(s, st).producer.Emitting?
  {
  }

  /**
   A connection is passed over only in a batch close whose context became done; so in a batch send, and in a batch close
   whose context has not become done, every result so far is that of an attempt.
   */
  lemma {:induction false} PassedOverOnlyWhenDone(states: seq<State>, steps: seq<Step>, concurrency: int, k: nat)
    requires IsRun(states, steps, concurrency) && k < |states|
    requires !states[0].closing || !states[k].ctxDone
    ensures AllActed(states[k]) && states[k].closing == states[0].closing && !states[k].producer.Emitting?
  {
    if k > 0 {
      StepKeepsAttempts(states[k - 1], steps[k - 1]);
      PassedOverOnlyWhenDone(states, steps, concurrency, k - 1);
    }
  }

  // ---- a result carries what happened -------------------------------------------------

  predicate Present(s: State, r: Report)
  {
    || r in s.buffer || r in s.collected
    || exists w :: 0 <= w < |s.workers| && s.workers[w] == Reporting(r)
  }

  /** At step `j` a worker holding connection `c` acts on it, and the action returns `err`. */
  ghost predicate ActsOn(states: seq<State>, steps: seq<Step>, j: nat, c: nat, err: Err)
  {
    && j < |steps| && j + 1 < |states|
    && steps[j].Act? && steps[j].err == err
    && WorkerAt(states[j], steps[j].w) && states[j].workers[steps[j].w] == Holding(c)
    && states[j + 1].acted[c] > states[j].acted[c]
  }

  /** A report that was not there before comes from an action, or has an error of its own. */
  lemma NewReport(s: State, st: Step, r: Report)
    requires Enabled(s, st) && Present(Apply(s, st), r) && !Present(s, r)
    ensures !r.acted ==> r.err != NoError
    ensures r.acted ==> st.Act? && st.err == r.err && s.workers[st.w] == Holding(r.c)
    ensures r.acted ==> Apply(s, st).acted[r.c] > s.acted[r.c]
  {
    if w :| 0 <= w < |s.workers| && Apply(s, st).workers[w] == Reporting(r) {
      assert st.Act? && st.w == w;
    }
  }

  /**
   A result, on its way or collected, carries the error that the action on its connection returned; that of a connection
   passed over carries an error of its own.
   */
  lemma {:induction false} ResultCarriesError(states: seq<State>, steps: seq<Step>, concurrency: int, k: nat, r: Report)
    returns (j: nat)
    requires IsRun(states, steps, concurrency) && k < |states| && Present(states[k], r)
    ensures r.acted ==> j < k && ActsOn(states, steps, j, r.c, r.err)
    ensures !r.acted ==> r.err != NoError
  {
    if Present(states[k - 1], r) {
      j := ResultCarriesError(states, steps, concurrency, k - 1, r);
    } else {
      j := k - 1;
      NewReport(states[j], steps[j], r);
    }
  }

  lemma {:induction false} ActedGrows(states: seq<State>, steps: seq<Step>, concurrency: int, j: nat, k: nat, c: nat)
    requires IsRun(states, steps, concurrency) && j <= k < |states|
    ensures states[j].acted[c] <= states[k].acted[c]
    decreases k
  {
    if j < k {
      ActedGrows(states, steps, concurrency, j, k - 1, c);
      assert states[k] == Apply(states[k - 1], steps[k - 1]);
    }
  }

  /** Nobody acts twice on one connection. */
  lemma ActsOnce(states: seq<State>, steps: seq<Step>, concurrency: int, i: nat, j: nat, c: nat, e: Err, f: Err)
    requires IsRun(states, steps, concurrency)
    requires ActsOn(states, steps, i, c, e) && ActsOn(states, steps, j, c, f)
    ensures i == j && e == f
  {
    var k := |states| - 1;
    RunInv(states, steps, concurrency, k);
    ActedAtMostOnce(states[k], c);
    if i < j {
      ActedGrows(states, steps, concurrency, i + 1, j, c);
      ActedGrows(states, steps, concurrency, j + 1, k, c);
    } else if j < i {
      ActedGrows(states, steps, concurrency, j + 1, i, c);
      ActedGrows(states, steps, concurrency, i + 1, k, c);
    }
  }

  lemma {:induction false} SumAtMost<T>(v: T -> int, w: T -> int, s: seq<T>)
    requires forall i :: 0 <= i < |s| ==> v(s[i]) <= w(s[i])
    ensures Sum(v, s) <= Sum(w, s)
  {
    if s != [] {
      SumAtMost(v, w, s[..|s| - 1]);
    }
  }

  lemma ActedAtMostOnce(s: State, c: nat)
    requires Conserved(s)
    ensures s.acted[c] <= 1
  {
    assert Places(s, c) == One(c < s.n) && ActedPlaces(s, c) == s.acted[c];
    SumAtMost(HoldsActed(c), Holds(c), s.workers);
    SumAtMost(ReportsActed(c), Reports(c), s.buffer);
    SumAtMost(ReportsActed(c), Reports(c), s.collected);
  }

  /** Once the caller's context is done, a batch close closes nothing more. */
  lemma {:induction false} NothingClosedAfterDone(states: seq<State>, steps: seq<Step>, concurrency: int, j: nat,
                                                  k: nat)
    requires IsRun(states, steps, concurrency) && j <= k < |states|
    requires states[j].closing && states[j].ctxDone
    ensures states[k].closing && states[k].ctxDone && states[k].acted == states[j].acted
    decreases k
  {
    if j < k {
      NothingClosedAfterDone(states, steps, concurrency, j, k - 1);
      assert states[k] == Apply(states[k - 1], steps[k - 1]);
    }
  }

  // ---- progress and termination -------------------------------------------------------

  function WorkerWork(w: Worker): int
  {
    match w
    case Idle => 1
    case Holding(_) => 4
    case Reporting(_) => 3
    case Gone => 0
  }

  function ProducerWork(s: State): int
  {
    match s.producer
    case Feeding(next) => 5 * (s.n - next) + 3
    case Emitting(next) => 5 * (s.n - next) + 2
    case JobsClosed => 2
    case ResultsClosed => 1
  }

  function Remaining(s: State): int
  {
    (if s.ctxDone then 0 else 1) + (if s.returned then 0 else 1)
    + ProducerWork(s) + Sum(WorkerWork, s.workers) + |s.buffer|
  }

  /** A measure strictly decreases with every step. */
  lemma StepDecreases(s: State, st: Step)
    requires PhaseInv(s) && Enabled(s, st)
    ensures Remaining(Apply(s, st)) < Remaining(s)
  {
    WorkerSum(s, st, WorkerWork);
  }

  /** No run is longer than the initial measure: the batch terminates under every schedule. */
  lemma {:induction false} BatchTerminates(states: seq<State>, steps: seq<Step>, concurrency: int, k: nat)
    requires IsRun(states, steps, concurrency) && k < |states|
    ensures 0 <= k + Remaining(states[k]) <= Remaining(states[0]) && Remaining(states[k]) >= 0
  {
    RunPhases(states, steps, concurrency, k);
    SumBounds(WorkerWork, states[k].workers);
    if k > 0 {
      BatchTerminates(states, steps, concurrency, k - 1);
      RunPhases(states, steps, concurrency, k - 1);
      StepDecreases(states[k - 1], steps[k - 1]);
    }
  }

  /** No state before completion is stuck, even if the caller's context never becomes done. */
  lemma BatchNotStuck(s: State) returns (st: Step)
    requires PhaseInv(s) && !s.returned
    ensures Enabled(s, st) && !st.CtxDone?
  {
    if s.buffer != [] {
      return Collect;
    }
    SumBounds(Alive, s.workers);
    if w :| 0 <= w < |s.workers| && s.workers[w].Reporting? {
      return SendResult(w);
    }
    if w :| 0 <= w < |s.workers| && s.workers[w].Holding? {
      return Act(w, NoError);
    }
    match s.producer
    case Feeding(next) => return if next < s.n then Hand(0) else CloseJobs;
    case Emitting(_) => return Emit;
    case ResultsClosed => return Return;
    case JobsClosed =>
      if s.wg == 0 {
        return CloseResults;
      }
      var w :| 0 <= w < |s.workers| && Alive(s.workers[w]) > 0;
      return Quit(w);
  }

  /** The caller's context may become done at any moment, and a batch close may then pass over the next connection. */
  lemma MayBeCutShort(s: State)
    ensures !s.ctxDone ==> Enabled(s, CtxDone) && Apply(s, CtxDone).ctxDone
    ensures s.closing && s.ctxDone && s.producer.Feeding? && s.producer.next < s.n ==> Enabled(s, Skip)
  {
  }

  // ---- the collector ------------------------------------------------------------------

  const MAX_ERROR_SAMPLES := 4

  /** The fields of SendResult and CloseResult; `done` is Sent or Closed. `err` carries the joined samples. */
  datatype BatchError = Nothing | Failures(failed: nat, samples: seq<Err>)
  datatype BatchResult = BatchResult(matched: nat, done: nat, failed: nat, err: BatchError)

  function Failed(r: Report): int
  {
    One(r.err != NoError)
  }

  /** The errors among the results, in order of arrival. */
  function Errors(reports: seq<Report>): seq<Err>
  {
    if reports == [] then []
    else Errors(reports[..|reports| - 1]) +
         if reports[|reports| - 1].err == NoError then [] else [reports[|reports| - 1].err]
  }

  lemma {:induction false} ErrorsCount(reports: seq<Report>)
    ensures |Errors(reports)| == Sum(Failed, reports)
    ensures forall e :: e in Errors(reports) ==> e != NoError
  {
    if reports != [] {
      ErrorsCount(reports[..|reports| - 1]);
    }
  }

  function FirstFew(errors: seq<Err>): (few: seq<Err>)
    ensures |few| <= MAX_ERROR_SAMPLES && few <= errors
    ensures errors != [] ==> few != []
  {
    if |errors| < MAX_ERROR_SAMPLES then errors else errors[..MAX_ERROR_SAMPLES]
  }

  /** `buildBatchError`. */
  function BuildBatchError(failed: nat, samples: seq<Err>): BatchError
  {
    if failed == 0 then Nothing else Failures(failed, samples)
  }

  /** The samples are the first four errors, or all of them if there are fewer. */
  lemma SamplesAreFirstFour(errors: seq<Err>)
    ensures |FirstFew(errors)| == if |errors| < 4 then |errors| else 4
    ensures forall i :: 0 <= i < |FirstFew(errors)| ==> FirstFew(errors)[i] == errors[i]
  {
  }

  /**
   The loop over `results` at the end of a batch: every result is counted once, and the first four errors are kept.
   */
  method CollectResults(matched: nat, reports: seq<Report>) returns (result: BatchResult)
    ensures result.matched == matched
    ensures result.failed == Sum(Failed, reports) && result.done + result.failed == |reports|
    ensures result.err.Nothing? <==> result.failed == 0
    ensures result.err.Failures? ==>
              result.err == Failures(result.failed, FirstFew(Errors(reports))) && result.err.samples != []
  {
    var done, failed: nat, samples: seq<Err> := 0, 0, [];
    for i := 0 to |reports|
      invariant failed == |Errors(reports[..i])| && done + failed == i
      invariant samples == FirstFew(Errors(reports[..i]))
    {
      assert reports[..i + 1][..i] == reports[..i];
      if reports[i].err == NoError {
        done := done + 1;
        continue;
      }
      failed := failed + 1;
      if |samples| < MAX_ERROR_SAMPLES {
        samples := samples + [reports[i].err];
      }
    }
    assert reports[..|reports|] == reports;
    ErrorsCount(reports);
    result := BatchResult(matched, done, failed, BuildBatchError(failed, samples));
  }

  ghost predicate ActionFailed(states: seq<State>, steps: seq<Step>, c: nat)
  {
    exists j: nat, e :: e != NoError && ActsOn(states, steps, j, c, e)
  }

  /** The connections that were passed over, or on which the action failed. */
  ghost function Missed(states: seq<State>, steps: seq<Step>): set<nat>
    requires states != []
  {
    var last := states[|states| - 1];
    set c: nat | c < last.n && (last.acted[c] == 0 || ActionFailed(states, steps, c))
  }

  ghost function FailedOf(reports: seq<Report>): set<nat>
  {
    set i | 0 <= i < |reports| && reports[i].err != NoError :: reports[i].c
  }

  /** With at most one report for each connection, the failed reports are as many as their connections. */
  lemma {:induction false} FailedCount(reports: seq<Report>)
    requires forall c: nat :: Sum(Reports(c), reports) <= 1
    ensures Sum(Failed, reports) == |FailedOf(reports)|
  {
    if reports != [] {
      var n := |reports| - 1;
      var r := reports[n];
      forall c: nat ensures Sum(Reports(c), reports[..n]) <= 1 {
        assert Reports(c)(r) >= 0;
      }
      FailedCount(reports[..n]);
      SumBounds(Reports(r.c), reports[..n]);
      forall i | 0 <= i < n ensures reports[i].c != r.c {
        assert reports[..n][i] == reports[i];
        assert Reports(r.c)(reports[..n][i]) <= Sum(Reports(r.c), reports[..n]);
        assert Sum(Reports(r.c), reports) == Sum(Reports(r.c), reports[..n]) + 1;
      }
      assert FailedOf(reports) == FailedOf(reports[..n]) + if r.err != NoError then {r.c} else {};
    }
  }

  /** The result collected for a connection has an error exactly if it was passed over or the action on it failed. */
  lemma FailsIfMissed(states: seq<State>, steps: seq<Step>, concurrency: int, r: Report)
    requires IsRun(states, steps, concurrency) && states[|states| - 1].returned
    requires r in states[|states| - 1].collected
    ensures r.c < states[0].n && (r.err != NoError <==> r.c in Missed(states, steps))
  {
    var k := |states| - 1;
    var last := states[k];
    RunInv(states, steps, concurrency, k);
    OneResultEach(states, steps, concurrency, k);
    var i :| 0 <= i < |last.collected| && last.collected[i] == r;
    SumBounds(Reports(r.c), last.collected);
    assert Reports(r.c)(last.collected[i]) == 1;
    var j := ResultCarriesError(states, steps, concurrency, k, r);
    if r.acted {
      SumBounds(ReportsActed(r.c), last.collected);
      assert ReportsActed(r.c)(last.collected[i]) == 1;
      if l: nat, e :| e != NoError && ActsOn(states, steps, l, r.c, e) {
        ActsOnce(states, steps, concurrency, j, l, r.c, r.err, e);
      }
    } else {
      NotActedOn(last.collected, i, r.c);
    }
  }

  /** Where the one report for a connection says it was not acted on, no report says it was. */
  lemma {:induction false} NotActedOn(reports: seq<Report>, i: nat, c: nat)
    requires i < |reports| && reports[i].c == c && !reports[i].acted && Sum(Reports(c), reports) <= 1
    ensures Sum(ReportsActed(c), reports) == 0
  {
    var n := |reports| - 1;
    SumBounds(Reports(c), reports[..n]);
    SumAtMost(ReportsActed(c), Reports(c), reports[..n]);
    SumBounds(ReportsActed(c), reports[..n]);
    if i < n {
      assert reports[..n][i] == reports[i];
      assert Reports(c)(reports[..n][i]) <= Sum(Reports(c), reports[..n]);
      NotActedOn(reports[..n], i, c);
    }
  }

  lemma MissedCount(states: seq<State>, steps: seq<Step>, concurrency: int)
    requires IsRun(states, steps, concurrency) && states[|states| - 1].returned
    ensures Sum(Failed, states[|states| - 1].collected) == |Missed(states, steps)|
  {
    var last := states[|states| - 1];
    RunInv(states, steps, concurrency, |states| - 1);
    OneResultEach(states, steps, concurrency, |states| - 1);
    FailedCount(last.collected);
    forall c: nat ensures c in FailedOf(last.collected) <==> c in Missed(states, steps) {
      SumBounds(Reports(c), last.collected);
      if c < last.n {
        var i :| 0 <= i < |last.collected| && Reports(c)(last.collected[i]) > 0;
        FailsIfMissed(states, steps, concurrency, last.collected[i]);
      }
      if c in FailedOf(last.collected) {
        var i :| 0 <= i < |last.collected| && last.collected[i].err != NoError && last.collected[i].c == c;
        FailsIfMissed(states, steps, concurrency, last.collected[i]);
      }
    }
    assert FailedOf(last.collected) == Missed(states, steps);
  }

  /**
   The whole batch: however it is scheduled, the result accounts for every matched connection exactly once, and fails
   for exactly those that were passed over or on which the action failed.
   */
  method CollectBatch(ghost states: seq<State>, ghost steps: seq<Step>, ghost concurrency: int, last: State)
    returns (result: BatchResult)
    requires IsRun(states, steps, concurrency) && last == states[|states| - 1] && last.returned
    ensures result.matched == last.n == result.done + result.failed
    ensures result.failed == |Missed(states, steps)|
    ensures result.err.Nothing? <==> Missed(states, steps) == {}
  {
    result := CollectResults(last.n, last.collected);
    OneResultEach(states, steps, concurrency, |states| - 1);
    RunInv(states, steps, concurrency, |states| - 1);
    MissedCount(states, steps, concurrency);
  }
}
