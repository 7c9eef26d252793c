/** A server that is not cancelled works: from every reachable state any check it has can be
    launched and executed, without cancelling, and be put back, again and again. */
module Serving {
  import opened Wrappers
  import opened Counting
  import opened Dispatcher
  import opened DispatcherLaws
  import opened Cancellation

  /** Since s, c was the last check to be launched, and its goroutine has executed it. */
  predicate Served(s: State, t: State, c: CheckRef) {
    && s.dispatched < t.dispatched && t.dispatched[|t.dispatched| - 1] == c
    && |s.workers| < |t.workers| && t.workers[|t.workers| - 1] == ReEnqueueing(c)
  }

  /** The server is up: it can be run on from here. */
  ghost predicate Up(cfg: Config, q0: multiset<CheckRef>, s: State) {
    Inv(cfg, q0, s) && !s.cancelled && cfg.maxRunning > 0
  }

  lemma UpSelects(cfg: Config, q0: multiset<CheckRef>, s: State)
    requires Up(cfg, q0, s)
    ensures s.main.Selecting? || s.main.Acquiring? || s.main.Launching?
  {
  }

  /** One step other than Cancel, and the rest of the run behind it. */
  lemma Onwards(cfg: Config, q0: multiset<CheckRef>, s: State, step: Step)
    requires Up(cfg, q0, s) && Enabled(cfg, s, step) && step != Cancel
    ensures Up(cfg, q0, Do(cfg, s, step))
    ensures forall rest :: Run(cfg, s, [step] + rest) == Run(cfg, Do(cfg, s, step), rest)
  {
    StepKeepsInv(cfg, q0, s, step);
    forall rest
      ensures Run(cfg, s, [step] + rest) == Run(cfg, Do(cfg, s, step), rest)
    {
      RunStep(cfg, s, step, rest);
    }
  }

  /** What the select loop and the check goroutines do while they have something in hand or in the
      buffer: it lowers the measure and leaves the producer alone. */
  lemma LoopMoves(cfg: Config, q0: multiset<CheckRef>, s: State) returns (step: Step)
    requires Up(cfg, q0, s) && !(s.main == Selecting && s.pending == [])
    ensures Enabled(cfg, s, step) && step != Cancel && Measure(Do(cfg, s, step)) < Measure(s)
    ensures Do(cfg, s, step).producer == s.producer && s.queue <= Do(cfg, s, step).queue
    ensures step.ByWorker? || (step == ByMain(if s.main.Selecting? then MainReceives
                                              else if s.main.Acquiring? then MainAcquires else MainLaunches))
  {
    UpSelects(cfg, q0, s);
    match s.main {
      case Selecting => step := ByMain(MainReceives);
      case Launching(_) =>
        step := ByMain(MainLaunches);
        SumAppend(s.workers, Executing(s.main.chk), Work);
      case Acquiring(_) =>
        if s.limiter < cfg.maxRunning {
          step := ByMain(MainAcquires);
        } else {
          step := SlotHolderMoves(cfg, s);
          SumUpdate(s.workers, step.i, NextWorker(s.workers[step.i], step.w), Work);
        }
    }
  }

  /** Where c is after that step, unless it has just been launched. */
  function Onward(s: State, step: Step, p: Place): Place {
    if step == ByMain(MainReceives) && p.InBuffer? then
      if p.i == 0 then WithMain else InBuffer(p.i - 1)
    else p
  }

  lemma HeldOnward(cfg: Config, q0: multiset<CheckRef>, s: State, step: Step, p: Place, c: CheckRef)
    requires Up(cfg, q0, s) && Holds(s, p, c) && (p.InBuffer? || p.WithMain?) && Enabled(cfg, s, step)
    requires step.ByWorker? || step == ByMain(MainReceives) || step == ByMain(MainAcquires)
             || (step == ByMain(MainLaunches) && p.InBuffer?)
    ensures Holds(Do(cfg, s, step), Onward(s, step, p), c)
    ensures s.dispatched <= Do(cfg, s, step).dispatched && |s.workers| <= |Do(cfg, s, step).workers|
  {
  }

  lemma LaunchAndRun(cfg: Config, q0: multiset<CheckRef>, s: State, c: CheckRef) returns (more: seq<Step>)
    requires Up(cfg, q0, s) && s.main == Launching(c)
    ensures Cancel !in more && Run(cfg, s, more).Some? && Served(s, Run(cfg, s, more).value, c)
  {
    var launch, run := ByMain(MainLaunches), ByWorker(|s.workers|, WorkerExecutes);
    Onwards(cfg, q0, s, launch);
    Onwards(cfg, q0, Do(cfg, s, launch), run);
    more := [launch] + ([run] + []);
  }

  /** A check in the buffer or in the main loop's hand is launched and executed. */
  lemma {:induction false} ServeHeld(cfg: Config, q0: multiset<CheckRef>, s: State, p: Place, c: CheckRef)
    returns (more: seq<Step>)
    requires Up(cfg, q0, s) && Holds(s, p, c) && (p.InBuffer? || p.WithMain?)
    ensures Cancel !in more && Run(cfg, s, more).Some? && Served(s, Run(cfg, s, more).value, c)
    decreases Measure(s)
  {
    if s.main == Launching(c) && p.WithMain? {
      more := LaunchAndRun(cfg, q0, s, c);
    } else {
      var step := LoopMoves(cfg, q0, s);
      Onwards(cfg, q0, s, step);
      HeldOnward(cfg, q0, s, step, p, c);
      var rest := ServeHeld(cfg, q0, Do(cfg, s, step), Onward(s, step, p), c);
      more := [step] + rest;
    }
  }

  /** The loop empties its hand and the buffer. */
  lemma {:induction false} ClearBuffer(cfg: Config, q0: multiset<CheckRef>, s: State) returns (more: seq<Step>, t: State)
    requires Up(cfg, q0, s)
    ensures Cancel !in more && Run(cfg, s, more) == Some(t) && Up(cfg, q0, t)
    ensures t.pending == [] && t.producer == s.producer && s.queue <= t.queue
    ensures s.dispatched <= t.dispatched && |s.workers| <= |t.workers|
    decreases Measure(s)
  {
    if s.main == Selecting && s.pending == [] {
      more, t := [], s;
    } else {
      var step := LoopMoves(cfg, q0, s);
      Onwards(cfg, q0, s, step);
      var rest;
      rest, t := ClearBuffer(cfg, q0, Do(cfg, s, step));
      more := [step] + rest;
    }
  }

  /** The producer comes to a statement from which it goes on to Dequeue. */
  lemma ProducerTurns(cfg: Config, q0: multiset<CheckRef>, s: State) returns (more: seq<Step>, t: State)
    requires Up(cfg, q0, s)
    ensures Cancel !in more && Run(cfg, s, more) == Some(t) && Up(cfg, q0, t)
    ensures t.producer.TestingContext? || t.producer.TestingLength? || t.producer.Dequeueing?
    ensures t.queue == s.queue && t.dispatched == s.dispatched && t.workers == s.workers
  {
    if s.producer.Sending? || s.producer.Sleeping? {
      var step := ByProducer(if s.producer.Sending? then ProducerSends else ProducerWakes);
      Onwards(cfg, q0, s, step);
      more, t := [step] + [], Do(cfg, s, step);
    } else {
      more, t := [], s;
    }
  }

  /** With room in the buffer the producer takes c from the queue and sends it. */
  lemma {:induction false} Fetch(cfg: Config, q0: multiset<CheckRef>, s: State, c: CheckRef)
    returns (more: seq<Step>, t: State)
    requires Up(cfg, q0, s) && s.pending == [] && c in s.queue
    requires s.producer.TestingContext? || s.producer.TestingLength? || s.producer.Dequeueing?
    ensures Cancel !in more && Run(cfg, s, more) == Some(t) && Up(cfg, q0, t) && Holds(t, InBuffer(0), c)
    ensures t.dispatched == s.dispatched && t.workers == s.workers
    decreases match s.producer case TestingContext => 2 case TestingLength => 1 case _ => 0
  {
    if s.producer.Dequeueing? {
      var take := ByProducer(ProducerDequeues(Some(c)));
      Onwards(cfg, q0, s, take);
      var s1 := Do(cfg, s, take);
      Onwards(cfg, q0, s1, ByProducer(ProducerSends));
      more := [take] + ([ByProducer(ProducerSends)] + []);
      t := Do(cfg, s1, ByProducer(ProducerSends));
    } else {
      var step := ByProducer(if s.producer.TestingContext? then ProducerGoesOn else ProducerFindsRoom);
      Onwards(cfg, q0, s, step);
      var rest;
      rest, t := Fetch(cfg, q0, Do(cfg, s, step), c);
      more := [step] + rest;
    }
  }

  /** Two runs in a row. */
  lemma Join(cfg: Config, s: State, first: seq<Step>, t: State, rest: seq<Step>)
    requires Run(cfg, s, first) == Some(t) && Cancel !in first && Cancel !in rest
    ensures Run(cfg, s, first + rest) == Run(cfg, t, rest) && Cancel !in first + rest
  {
    RunOn(cfg, s, first, rest);
  }

  /** What is served since a later state is served since an earlier one. */
  lemma ServedSince(s: State, s': State, t: State, c: CheckRef)
    requires s.dispatched <= s'.dispatched && |s.workers| <= |s'.workers| && Served(s', t, c)
    ensures Served(s, t, c)
  {
  }

  lemma ServeCleared(cfg: Config, q0: multiset<CheckRef>, s: State, c: CheckRef) returns (more: seq<Step>)
    requires Up(cfg, q0, s) && s.pending == [] && c in s.queue
    requires s.producer.TestingContext? || s.producer.TestingLength? || s.producer.Dequeueing?
    ensures Cancel !in more && Run(cfg, s, more).Some? && Served(s, Run(cfg, s, more).value, c)
  {
    var first, t := Fetch(cfg, q0, s, c);
    var rest := ServeHeld(cfg, q0, t, InBuffer(0), c);
    Join(cfg, s, first, t, rest);
    ServedSince(s, t, Run(cfg, t, rest).value, c);
    more := first + rest;
  }

  lemma ServeTurned(cfg: Config, q0: multiset<CheckRef>, s: State, c: CheckRef) returns (more: seq<Step>)
    requires Up(cfg, q0, s) && c in s.queue
    requires s.producer.TestingContext? || s.producer.TestingLength? || s.producer.Dequeueing?
    ensures Cancel !in more && Run(cfg, s, more).Some? && Served(s, Run(cfg, s, more).value, c)
  {
    var first, t := ClearBuffer(cfg, q0, s);
    var rest := ServeCleared(cfg, q0, t, c);
    Join(cfg, s, first, t, rest);
    ServedSince(s, t, Run(cfg, t, rest).value, c);
    more := first + rest;
  }

  lemma ServeQueued(cfg: Config, q0: multiset<CheckRef>, s: State, c: CheckRef) returns (more: seq<Step>)
    requires Up(cfg, q0, s) && c in s.queue
    ensures Cancel !in more && Run(cfg, s, more).Some? && Served(s, Run(cfg, s, more).value, c)
  {
    var first, t := ProducerTurns(cfg, q0, s);
    var rest := ServeTurned(cfg, q0, t, c);
    Join(cfg, s, first, t, rest);
    ServedSince(s, t, Run(cfg, t, rest).value, c);
    more := first + rest;
  }

  lemma ServeSending(cfg: Config, q0: multiset<CheckRef>, s: State, c: CheckRef) returns (more: seq<Step>)
    requires Up(cfg, q0, s) && s.producer == Sending(c)
    ensures Cancel !in more && Run(cfg, s, more).Some? && Served(s, Run(cfg, s, more).value, c)
  {
    var step := ByProducer(ProducerSends);
    Onwards(cfg, q0, s, step);
    var rest := ServeHeld(cfg, q0, Do(cfg, s, step), InBuffer(|s.pending|), c);
    ServedSince(s, Do(cfg, s, step), Run(cfg, Do(cfg, s, step), rest).value, c);
    more := [step] + rest;
  }

  lemma ServeRunning(cfg: Config, q0: multiset<CheckRef>, s: State, i: nat, c: CheckRef) returns (more: seq<Step>)
    requires Up(cfg, q0, s) && Holds(s, WithWorker(i), c) && cfg.autoReEnqueue
    ensures Cancel !in more && Run(cfg, s, more).Some? && Served(s, Run(cfg, s, more).value, c)
  {
    var first, t := PutBack(cfg, q0, s, i, c);
    var rest := ServeQueued(cfg, q0, t, c);
    Join(cfg, s, first, t, rest);
    ServedSince(s, t, Run(cfg, t, rest).value, c);
    more := first + rest;
  }

  /** A goroutine that has the check finishes with it, and with AutoReEnqueue puts it back. */
  lemma PutBack(cfg: Config, q0: multiset<CheckRef>, s: State, i: nat, c: CheckRef)
    returns (more: seq<Step>, t: State)
    requires Up(cfg, q0, s) && Holds(s, WithWorker(i), c)
    ensures Cancel !in more && Run(cfg, s, more) == Some(t) && Up(cfg, q0, t)
    ensures t.dispatched == s.dispatched && |t.workers| == |s.workers| && t.workers[i] == Releasing
    ensures cfg.autoReEnqueue ==> t.queue == s.queue + multiset{c}
    ensures !cfg.autoReEnqueue ==> t.queue == s.queue && t.retired == s.retired + multiset{c}
  {
    var s1, first := s, [];
    if s.workers[i].Executing? {
      Onwards(cfg, q0, s, ByWorker(i, WorkerExecutes));
      s1, first := Do(cfg, s, ByWorker(i, WorkerExecutes)), [ByWorker(i, WorkerExecutes)] + [];
    }
    Onwards(cfg, q0, s1, ByWorker(i, WorkerReEnqueues));
    t := Do(cfg, s1, ByWorker(i, WorkerReEnqueues));
    Join(cfg, s, first, s1, [ByWorker(i, WorkerReEnqueues)] + []);
    more := first + ([ByWorker(i, WorkerReEnqueues)] + []);
  }

  lemma ServeAnywhere(cfg: Config, q0: multiset<CheckRef>, s: State, p: Place, c: CheckRef) returns (more: seq<Step>)
    requires Up(cfg, q0, s) && Holds(s, p, c) && (p.WithWorker? ==> cfg.autoReEnqueue)
    ensures Cancel !in more && Run(cfg, s, more).Some? && Served(s, Run(cfg, s, more).value, c)
  {
    match p {
      case InQueue => more := ServeQueued(cfg, q0, s, c);
      case WithProducer => more := ServeSending(cfg, q0, s, c);
      case InBuffer(_) => more := ServeHeld(cfg, q0, s, p, c);
      case WithMain => more := ServeHeld(cfg, q0, s, p, c);
      case WithWorker(i) => more := ServeRunning(cfg, q0, s, i, c);
    }
  }

  /** From every reachable state of a server that is not cancelled and may run checks, every check
      that it has, wherever it is, can be launched and executed without cancelling.  Only a check
      that is being finished with AutoReEnqueue off is not launched again. */
  lemma EveryCheckCanRun(cfg: Config, q0: multiset<CheckRef>, steps: seq<Step>, p: Place, c: CheckRef)
    returns (more: seq<Step>)
    requires Run(cfg, Init(q0), steps).Some? && cfg.maxRunning > 0
    requires var s := Run(cfg, Init(q0), steps).value;
             !s.cancelled && Holds(s, p, c) && (p.WithWorker? ==> cfg.autoReEnqueue)
    ensures var s := Run(cfg, Init(q0), steps).value;
            Cancel !in more && Run(cfg, s, more).Some? && Served(s, Run(cfg, s, more).value, c)
  {
    Reachable(cfg, q0, steps);
    more := ServeAnywhere(cfg, q0, Run(cfg, Init(q0), steps).value, p, c);
  }

  /** What has run can be put back by its goroutine. */
  lemma EveryCheckComesBack(cfg: Config, q0: multiset<CheckRef>, steps: seq<Step>, i: nat, c: CheckRef)
    returns (more: seq<Step>)
    requires Run(cfg, Init(q0), steps).Some? && cfg.maxRunning > 0 && cfg.autoReEnqueue
    requires var s := Run(cfg, Init(q0), steps).value; !s.cancelled && Holds(s, WithWorker(i), c)
    ensures var s := Run(cfg, Init(q0), steps).value;
            Cancel !in more && Run(cfg, s, more).Some? && Run(cfg, s, more).value.queue == s.queue + multiset{c}
  {
    Reachable(cfg, q0, steps);
    var t;
    more, t := PutBack(cfg, q0, Run(cfg, Init(q0), steps).value, i, c);
  }

  /** With AutoReEnqueue, a check can be launched and executed any number of times. */
  lemma {:induction false} AgainAndAgain(cfg: Config, q0: multiset<CheckRef>, s: State, p: Place, c: CheckRef, n: nat)
    returns (more: seq<Step>)
    requires Up(cfg, q0, s) && Holds(s, p, c) && cfg.autoReEnqueue
    ensures Cancel !in more && Run(cfg, s, more).Some?
    ensures Occurs(Run(cfg, s, more).value.dispatched, c) >= Occurs(s.dispatched, c) + n
    decreases n
  {
    if n == 0 {
      more := [];
    } else {
      var first := ServeAnywhere(cfg, q0, s, p, c);
      var t := Run(cfg, s, first).value;
      StaysUp(cfg, q0, s, first);
      LaunchedOnceMore(s.dispatched, t.dispatched, c);
      var rest := AgainAndAgain(cfg, q0, t, WithWorker(|t.workers| - 1), c, n - 1);
      Join(cfg, s, first, t, rest);
      more := first + rest;
    }
  }

  lemma {:induction false} StaysUp(cfg: Config, q0: multiset<CheckRef>, s: State, steps: seq<Step>)
    requires Up(cfg, q0, s) && Run(cfg, s, steps).Some? && Cancel !in steps
    ensures Up(cfg, q0, Run(cfg, s, steps).value)
    decreases |steps|
  {
    if steps != [] {
      StepKeepsInv(cfg, q0, s, steps[0]);
      StaysUp(cfg, q0, Do(cfg, s, steps[0]), steps[1..]);
    }
  }

  lemma {:induction false} LaunchedOnceMore(before: seq<CheckRef>, after: seq<CheckRef>, c: CheckRef)
    requires before < after && after[|after| - 1] == c
    ensures Occurs(after, c) >= Occurs(before, c) + 1
  {
    if before == [] {
      OccursAt(after, |after| - 1, c);
    } else {
      LaunchedOnceMore(before[1..], after[1..], c);
    }
  }

  // ---- what only Cancel and Tick do ----

  lemma {:induction false} OnlyCancelCancels(cfg: Config, s: State, steps: seq<Step>)
    requires Run(cfg, s, steps).Some?
    ensures Run(cfg, s, steps).value.cancelled <==> s.cancelled || Cancel in steps
    decreases |steps|
  {
    if steps != [] {
      OnlyCancelCancels(cfg, Do(cfg, s, steps[0]), steps[1..]);
      assert steps == [steps[0]] + steps[1..];
    }
  }

  function WithoutTicks(steps: seq<Step>): seq<Step> {
    if steps == [] then []
    else if steps[0] == Tick then WithoutTicks(steps[1..])
    else [steps[0]] + WithoutTicks(steps[1..])
  }

  /** The warning timer changes nothing: a run without its ticks comes to the same state. */
  lemma {:induction false} TicksChangeNothing(cfg: Config, s: State, steps: seq<Step>)
    requires Run(cfg, s, steps).Some?
    ensures Run(cfg, s, WithoutTicks(steps)) == Run(cfg, s, steps)
    decreases |steps|
  {
    if steps != [] {
      TicksChangeNothing(cfg, Do(cfg, s, steps[0]), steps[1..]);
      if steps[0] != Tick {
        RunStep(cfg, s, steps[0], WithoutTicks(steps[1..]));
      }
    }
  }

  /** From the moment of cancellation on at most MaxRunningChecks + 2 checks are launched. */
  lemma LaunchesAfterCancel(cfg: Config, q0: multiset<CheckRef>, steps: seq<Step>, more: seq<Step>)
    requires Run(cfg, Init(q0), steps).Some? && Run(cfg, Init(q0), steps).value.cancelled
    requires Run(cfg, Run(cfg, Init(q0), steps).value, more).Some?
    ensures var s := Run(cfg, Init(q0), steps).value;
            && s.dispatched <= Run(cfg, s, more).value.dispatched
            && |Run(cfg, s, more).value.dispatched| <= |s.dispatched| + cfg.maxRunning + 2
  {
    var s := Run(cfg, Init(q0), steps).value;
    RunOn(cfg, Init(q0), steps, more);
    Reachable(cfg, q0, steps + more);
    LateCounts(cfg, s, more);
  }

  lemma {:induction false} LateCounts(cfg: Config, s: State, steps: seq<Step>)
    requires s.cancelled && Run(cfg, s, steps).Some?
    ensures var t := Run(cfg, s, steps).value;
            s.dispatched <= t.dispatched && t.late - s.late == |t.dispatched| - |s.dispatched|
            && t.cancelled
    decreases |steps|
  {
    if steps != [] {
      LateCounts(cfg, Do(cfg, s, steps[0]), steps[1..]);
    }
  }
}
