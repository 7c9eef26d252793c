/** What becomes of a server once it is cancelled: from every reachable state, whether it can still
    meet the nil of the closed channel, panic, or return. */
module Cancellation {
  import opened Wrappers
  import opened Counting
  import opened Dispatcher
  import opened DispatcherLaws

  /** The main loop has left its select for good. */
  predicate PastSelect(m: Main) {
    m.Waiting? || m.Draining? || m.Requeueing? || m.Returned?
  }

  lemma {:induction false} RunOn(cfg: Config, s: State, steps: seq<Step>, more: seq<Step>)
    requires Run(cfg, s, steps).Some?
    ensures Run(cfg, s, steps + more) == Run(cfg, Run(cfg, s, steps).value, more)
    decreases |steps|
  {
    if steps == [] {
      assert steps + more == more;
    } else {
      assert (steps + more)[1..] == steps[1..] + more;
      RunOn(cfg, Do(cfg, s, steps[0]), steps[1..], more);
    }
  }

  /** The select is not entered again. */
  lemma {:induction false} StaysPastSelect(cfg: Config, s: State, steps: seq<Step>)
    requires PastSelect(s.main) && Run(cfg, s, steps).Some?
    ensures PastSelect(Run(cfg, s, steps).value.main)
    decreases |steps|
  {
    if steps != [] {
      StaysPastSelect(cfg, Do(cfg, s, steps[0]), steps[1..]);
    }
  }

  /** Towards the nil: the producer closes the channel, the loop takes what is buffered and goes
      round, and checks that hold the slots it needs come to their end. */
  lemma TowardsNil(cfg: Config, q0: multiset<CheckRef>, s: State) returns (step: Step)
    requires Inv(cfg, q0, s) && !PastSelect(s.main) && !GotNil(s)
    ensures Enabled(cfg, s, step) && step != Tick && step != Cancel && !PastSelect(Do(cfg, s, step).main)
  {
    if s.producer != Exited {
      step := ProducerCanStep(cfg, s);
    } else {
      match s.main {
        case Selecting => step := ByMain(if s.pending == [] then MainReceivesNil else MainReceives);
        case Launching(_) => step := ByMain(MainLaunches);
        case Acquiring(_) =>
          if s.limiter < cfg.maxRunning {
            step := ByMain(MainAcquires);
          } else {
            step := SlotHolderMoves(cfg, s);
          }
      }
    }
  }

  lemma SlotHolderMoves(cfg: Config, s: State) returns (step: Step)
    requires Counted(cfg, s) && s.limiter == cfg.maxRunning > 0 && !s.main.Launching? && !s.main.Panicked?
    ensures Enabled(cfg, s, step) && step.ByWorker?
  {
    var i := SumWitness(s.workers, Slot);
    step := WorkerCanStep(cfg, s, i);
  }

  lemma {:induction false} NilRun(cfg: Config, q0: multiset<CheckRef>, s: State) returns (more: seq<Step>)
    requires Inv(cfg, q0, s) && s.cancelled && !PastSelect(s.main)
    ensures Run(cfg, s, more).Some? && GotNil(Run(cfg, s, more).value)
    decreases Measure(s)
  {
    if GotNil(s) {
      more := [];
    } else {
      var step := TowardsNil(cfg, q0, s);
      StepKeepsInv(cfg, q0, s, step);
      StepDecreases(cfg, s, step);
      var rest := NilRun(cfg, q0, Do(cfg, s, step));
      RunStep(cfg, s, step, rest);
      more := [step] + rest;
    }
  }

  /** With a limiter slot to wait for, the nil is dereferenced. */
  lemma {:induction false} PanicRun(cfg: Config, q0: multiset<CheckRef>, s: State) returns (more: seq<Step>)
    requires Inv(cfg, q0, s) && s.cancelled && GotNil(s) && cfg.maxRunning > 0
    ensures Run(cfg, s, more).Some? && Run(cfg, s, more).value.main == Panicked
    decreases Measure(s)
  {
    if s.main == Panicked {
      more := [];
    } else {
      var step: Step;
      if s.limiter < cfg.maxRunning {
        step := ByMain(MainDereferencesNil);
      } else {
        step := SlotHolderMoves(cfg, s);
      }
      StepKeepsInv(cfg, q0, s, step);
      StepDecreases(cfg, s, step);
      var rest := PanicRun(cfg, q0, Do(cfg, s, step));
      RunStep(cfg, s, step, rest);
      more := [step] + rest;
    }
  }

  /** A cancelled server can be run to its end without receiving another nil. */
  lemma {:induction false} EndRun(cfg: Config, q0: multiset<CheckRef>, s: State) returns (more: seq<Step>)
    requires Inv(cfg, q0, s) && s.cancelled
    ensures Run(cfg, s, more).Some? && Ended(cfg, Run(cfg, s, more).value)
    ensures ByMain(MainReceivesNil) !in more
    decreases Measure(s)
  {
    if Ended(cfg, s) {
      more := [];
    } else {
      var step := CanStep(cfg, q0, s);
      StepKeepsInv(cfg, q0, s, step);
      StepDecreases(cfg, s, step);
      var rest := EndRun(cfg, q0, Do(cfg, s, step));
      RunStep(cfg, s, step, rest);
      more := [step] + rest;
    }
  }

  /** s, cancelled if it is not yet. */
  lemma CancelFirst(cfg: Config, q0: multiset<CheckRef>, s: State) returns (first: seq<Step>, t: State)
    requires Inv(cfg, q0, s)
    ensures Run(cfg, s, first) == Some(t) && Inv(cfg, q0, t) && t.cancelled && t.main == s.main
    ensures ByMain(MainReceivesNil) !in first
  {
    if s.cancelled || s.main == Panicked {
      first, t := [], s;
    } else {
      first, t := [Cancel], Do(cfg, s, Cancel);
      StepKeepsInv(cfg, q0, s, Cancel);
      RunStep(cfg, s, Cancel, []);
    }
  }

  ghost predicate CanReach(cfg: Config, s: State, goal: State -> bool) {
    exists more :: Run(cfg, s, more).Some? && goal(Run(cfg, s, more).value)
  }

  /** From a reachable state the nil can still be received if and only if the main loop has not
      left its select for good, whatever else the server is doing. */
  lemma NilReachableIff(cfg: Config, q0: multiset<CheckRef>, steps: seq<Step>)
    requires Run(cfg, Init(q0), steps).Some?
    ensures var s := Run(cfg, Init(q0), steps).value;
            CanReach(cfg, s, GotNil) <==> !PastSelect(s.main)
  {
    Reachable(cfg, q0, steps);
    var s := Run(cfg, Init(q0), steps).value;
    if PastSelect(s.main) {
      forall more | Run(cfg, s, more).Some?
        ensures !GotNil(Run(cfg, s, more).value)
      {
        StaysPastSelect(cfg, s, more);
      }
    } else {
      var first, t := CancelFirst(cfg, q0, s);
      var rest := NilRun(cfg, q0, t);
      RunOn(cfg, s, first, rest);
      assert Run(cfg, s, first + rest).Some? && GotNil(Run(cfg, s, first + rest).value);
    }
  }

  predicate HasPanicked(s: State) {
    s.main == Panicked
  }

  predicate HasReturned(s: State) {
    s.main == Returned
  }

  /** A panic can still come if and only if, besides, checks may run at all. */
  lemma PanicReachableIff(cfg: Config, q0: multiset<CheckRef>, steps: seq<Step>)
    requires Run(cfg, Init(q0), steps).Some?
    ensures var s := Run(cfg, Init(q0), steps).value;
            CanReach(cfg, s, HasPanicked) <==> !PastSelect(s.main) && cfg.maxRunning > 0
  {
    Reachable(cfg, q0, steps);
    var s := Run(cfg, Init(q0), steps).value;
    if !PastSelect(s.main) && cfg.maxRunning > 0 {
      var first, t := CancelFirst(cfg, q0, s);
      var toNil := NilRun(cfg, q0, t);
      RunKeepsInv(cfg, q0, t, toNil);
      StaysCancelled(cfg, t, toNil);
      var toPanic := PanicRun(cfg, q0, Run(cfg, t, toNil).value);
      RunOn(cfg, t, toNil, toPanic);
      RunOn(cfg, s, first, toNil + toPanic);
      assert HasPanicked(Run(cfg, s, first + (toNil + toPanic)).value);
    } else {
      forall more | Run(cfg, s, more).Some?
        ensures !HasPanicked(Run(cfg, s, more).value)
      {
        RunKeepsInv(cfg, q0, s, more);
        if PastSelect(s.main) {
          StaysPastSelect(cfg, s, more);
        }
      }
    }
  }

  lemma {:induction false} StaysCancelled(cfg: Config, s: State, steps: seq<Step>)
    requires s.cancelled && Run(cfg, s, steps).Some?
    ensures Run(cfg, s, steps).value.cancelled
    decreases |steps|
  {
    if steps != [] {
      StaysCancelled(cfg, Do(cfg, s, steps[0]), steps[1..]);
    }
  }

  /** Run can still return if and only if nil has not been received. */
  lemma ReturnReachableIff(cfg: Config, q0: multiset<CheckRef>, steps: seq<Step>)
    requires Run(cfg, Init(q0), steps).Some?
    ensures var s := Run(cfg, Init(q0), steps).value;
            CanReach(cfg, s, HasReturned) <==> !GotNil(s)
  {
    Reachable(cfg, q0, steps);
    var s := Run(cfg, Init(q0), steps).value;
    if GotNil(s) {
      forall more | Run(cfg, s, more).Some?
        ensures !HasReturned(Run(cfg, s, more).value)
      {
        NilSticks(cfg, s, more);
      }
    } else {
      var first, t := CancelFirst(cfg, q0, s);
      var rest := EndRun(cfg, q0, t);
      NilSticks(cfg, t, rest);
      RunOn(cfg, s, first, rest);
      assert HasReturned(Run(cfg, s, first + rest).value);
    }
  }

  /** Nothing but the timer and the canceller can move. */
  ghost predicate Still(cfg: Config, s: State) {
    forall step :: Enabled(cfg, s, step) ==> step == Tick || step == Cancel
  }

  ghost predicate SureToReturn(cfg: Config, s: State) {
    forall more :: Run(cfg, s, more).Some? && Still(cfg, Run(cfg, s, more).value) ==>
      HasReturned(Run(cfg, s, more).value)
  }

  /** From a reachable state every continuation that comes to rest has returned if and only if the
      main loop has left its select for good; with CancelledRunsAreShort they all come to rest. */
  lemma SureToReturnIff(cfg: Config, q0: multiset<CheckRef>, steps: seq<Step>)
    requires Run(cfg, Init(q0), steps).Some?
    ensures var s := Run(cfg, Init(q0), steps).value;
            SureToReturn(cfg, s) <==> PastSelect(s.main)
  {
    Reachable(cfg, q0, steps);
    var s := Run(cfg, Init(q0), steps).value;
    if PastSelect(s.main) {
      forall more | Run(cfg, s, more).Some? && Still(cfg, Run(cfg, s, more).value)
        ensures HasReturned(Run(cfg, s, more).value)
      {
        RunOn(cfg, Init(q0), steps, more);
        MaximalRunsEnd(cfg, q0, steps + more);
        StaysPastSelect(cfg, s, more);
      }
    } else {
      var first, t := CancelFirst(cfg, q0, s);
      var toNil := NilRun(cfg, q0, t);
      RunKeepsInv(cfg, q0, t, toNil);
      StaysCancelled(cfg, t, toNil);
      var rest := RestingRun(cfg, q0, Run(cfg, t, toNil).value);
      RunOn(cfg, t, toNil, rest);
      RunOn(cfg, s, first, toNil + rest);
      NilSticks(cfg, Run(cfg, t, toNil).value, rest);
      assert !HasReturned(Run(cfg, s, first + (toNil + rest)).value);
    }
  }

  lemma {:induction false} RestingRun(cfg: Config, q0: multiset<CheckRef>, s: State) returns (more: seq<Step>)
    requires Inv(cfg, q0, s) && s.cancelled
    ensures Run(cfg, s, more).Some? && Still(cfg, Run(cfg, s, more).value)
    decreases Measure(s)
  {
    if Still(cfg, s) {
      more := [];
    } else {
      var step :| Enabled(cfg, s, step) && step != Tick && step != Cancel;
      StepKeepsInv(cfg, q0, s, step);
      StepDecreases(cfg, s, step);
      var rest := RestingRun(cfg, q0, Do(cfg, s, step));
      RunStep(cfg, s, step, rest);
      more := [step] + rest;
    }
  }
}
