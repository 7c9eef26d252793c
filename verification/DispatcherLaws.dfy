/** What Server.Run promises in every interleaving, proved from the dispatcher's invariant. */
module DispatcherLaws {
  import opened Wrappers
  import opened Counting
  import opened Dispatcher

  // ---- exclusive ownership ----

  /** Where a check can be. */
  datatype Place = InQueue | WithProducer | InBuffer(i: nat) | WithMain | WithWorker(i: nat)

  predicate Holds(s: State, p: Place, c: CheckRef) {
    match p
    case InQueue => c in s.queue
    case WithProducer => s.producer == Sending(c)
    case InBuffer(i) => i < |s.pending| && s.pending[i] == c
    case WithMain => s.main == Acquiring(c) || s.main == Launching(c) || s.main == Requeueing(c)
    case WithWorker(i) => i < |s.workers| && (s.workers[i] == Executing(c) || s.workers[i] == ReEnqueueing(c))
  }

  /** A place that holds c adds at least one to the part of Count it belongs to. */
  lemma PlaceCounts(s: State, p: Place, c: CheckRef)
    requires Holds(s, p, c)
    ensures p.InQueue? ==> s.queue[c] >= 1
    ensures p.WithProducer? ==> InProducer(s.producer, c) == 1
    ensures p.InBuffer? ==> Occurs(s.pending, c) >= 1
    ensures p.WithMain? ==> InMain(s.main, c) == 1
    ensures p.WithWorker? ==> Sum(s.workers, Holding(c)) >= 1
  {
    if p.InBuffer? {
      OccursAt(s.pending, p.i, c);
    } else if p.WithWorker? {
      SumAtLeast(s.workers, p.i, Holding(c));
    }
  }

  lemma TwoPlacesCountTwo(s: State, p: Place, q: Place, c: CheckRef)
    requires Holds(s, p, c) && Holds(s, q, c) && p != q
    ensures Count(s, c) >= 2
  {
    PlaceCounts(s, p, c);
    PlaceCounts(s, q, c);
    if p.InBuffer? && q.InBuffer? {
      OccursTwice(s.pending, if p.i < q.i then p.i else q.i, if p.i < q.i then q.i else p.i, c);
    } else if p.WithWorker? && q.WithWorker? {
      SumTwo(s.workers, if p.i < q.i then p.i else q.i, if p.i < q.i then q.i else p.i, Holding(c));
    }
  }

  lemma SomePlace(s: State, c: CheckRef) returns (p: Place)
    requires Count(s, c) >= 1
    ensures Holds(s, p, c)
  {
    if c in s.queue {
      p := InQueue;
    } else if s.producer == Sending(c) {
      p := WithProducer;
    } else if Occurs(s.pending, c) >= 1 {
      var i := OccursWhere(s.pending, c);
      p := InBuffer(i);
    } else if InMain(s.main, c) == 1 {
      p := WithMain;
    } else {
      var i := SumWitness(s.workers, Holding(c));
      p := WithWorker(i);
    }
  }

  /** A check queued once is, in every reachable state, in exactly one place: never in two, and
      lost only by running to its end with AutoReEnqueue off. */
  lemma ExclusiveOwnership(cfg: Config, q0: multiset<CheckRef>, steps: seq<Step>, c: CheckRef)
    requires Run(cfg, Init(q0), steps).Some? && q0[c] == 1
    ensures var s := Run(cfg, Init(q0), steps).value;
            && (forall p, q :: Holds(s, p, c) && Holds(s, q, c) ==> p == q)
            && ((exists p :: Holds(s, p, c)) <==> s.retired[c] == 0)
            && (cfg.autoReEnqueue ==> s.retired[c] == 0)
  {
    Reachable(cfg, q0, steps);
    var s := Run(cfg, Init(q0), steps).value;
    assert ConservedOne(cfg, q0, s, c);
    forall p, q | Holds(s, p, c) && Holds(s, q, c)
      ensures p == q
    {
      if p != q {
        TwoPlacesCountTwo(s, p, q, c);
      }
    }
    if s.retired[c] == 0 {
      var p := SomePlace(s, c);
    } else if p :| Holds(s, p, c) {
      PlaceCounts(s, p, c);
    }
  }

  /** No check's Execute overlaps itself. */
  lemma ExecuteNeverOverlapsItself(cfg: Config, q0: multiset<CheckRef>, steps: seq<Step>, i: nat, j: nat)
    requires Run(cfg, Init(q0), steps).Some? && (forall c :: q0[c] <= 1)
    requires var s := Run(cfg, Init(q0), steps).value;
             i < |s.workers| && j < |s.workers| && s.workers[i].Executing? && s.workers[i] == s.workers[j]
    ensures i == j
  {
    var s := Run(cfg, Init(q0), steps).value;
    var c := s.workers[i].chk;
    Reachable(cfg, q0, steps);
    assert ConservedOne(cfg, q0, s, c);
    if i != j {
      TwoPlacesCountTwo(s, WithWorker(i), WithWorker(j), c);
    }
  }

  /** Checks are launched in the order in which the queue gave them, and none is passed over. */
  lemma DispatchedInOrder(cfg: Config, q0: multiset<CheckRef>, steps: seq<Step>)
    requires Run(cfg, Init(q0), steps).Some?
    ensures var s := Run(cfg, Init(q0), steps).value;
            && s.dispatched <= s.dequeued
            && (!s.cancelled ==> s.dequeued == s.dispatched + OnTheWay(s))
  {
    Reachable(cfg, q0, steps);
  }

  // ---- shutdown ----

  lemma {:induction false} SumZero(ws: seq<Worker>, i: nat, f: Worker -> nat)
    requires Sum(ws, f) == 0 && i < |ws|
    ensures f(ws[i]) == 0
  {
    SumAtLeast(ws, i, f);
  }

  lemma {:induction false} AllFinished(ws: seq<Worker>, f: Worker -> nat)
    requires f(Finished) == 0
    requires forall i :: 0 <= i < |ws| ==> ws[i] == Finished
    ensures Sum(ws, f) == 0
  {
    if ws != [] {
      AllFinished(ws[1..], f);
    }
  }

  /** When Run returns every goroutine has ended and nothing is left in a channel; the queue
      holds what it held at the start, less the checks that were dispatched when they are not
      put back. */
  lemma ShutdownLaw(cfg: Config, q0: multiset<CheckRef>, steps: seq<Step>)
    requires Run(cfg, Init(q0), steps).Some?
    requires Run(cfg, Init(q0), steps).value.main == Returned
    ensures var s := Run(cfg, Init(q0), steps).value;
            && s.producer == Exited
            && (forall i :: 0 <= i < |s.workers| ==> s.workers[i] == Finished)
            && s.closed && s.pending == [] && s.limiter == 0
            && (cfg.autoReEnqueue ==> s.queue == q0)
            && (!cfg.autoReEnqueue ==> s.queue + multiset(s.dispatched) == q0)
  {
    Reachable(cfg, q0, steps);
    var s := Run(cfg, Init(q0), steps).value;
    forall i | 0 <= i < |s.workers|
      ensures s.workers[i] == Finished
    {
      SumZero(s.workers, i, Unsigned);
    }
    AllFinished(s.workers, Slot);
    forall c
      ensures s.queue[c] + (if cfg.autoReEnqueue then 0 else multiset(s.dispatched)[c]) == q0[c]
    {
      assert ConservedOne(cfg, q0, s, c);
      AllFinished(s.workers, Holding(c));
      OccursIsMultiplicity(s.dispatched, c);
    }
  }

  // ---- bounds ----

  /** The limiter bounds the checks that execute, a send whose length test passed never blocks,
      and after cancellation at most MaxRunningChecks + 2 more checks are launched. */
  lemma Bounds(cfg: Config, q0: multiset<CheckRef>, steps: seq<Step>)
    requires Run(cfg, Init(q0), steps).Some?
    ensures var s := Run(cfg, Init(q0), steps).value;
            && Sum(s.workers, Running) <= s.limiter <= cfg.maxRunning
            && (s.producer.Sending? && s.main != Panicked ==> Enabled(cfg, s, ByProducer(ProducerSends)))
            && s.late <= cfg.maxRunning + 2
  {
    Reachable(cfg, q0, steps);
    SumMonotone(Run(cfg, Init(q0), steps).value.workers, Running, Slot);
  }

  // ---- the nil receive ----

  predicate GotNil(s: State) {
    s.main == AcquiringNil || s.main == Panicked
  }

  /** Selecting on pendingChecks can yield nil exactly when the producer has closed the channel
      and it is drained; that is possible only after cancellation. */
  lemma NilReceiveOnlyAfterCancel(cfg: Config, q0: multiset<CheckRef>, steps: seq<Step>)
    requires Run(cfg, Init(q0), steps).Some?
    ensures var s := Run(cfg, Init(q0), steps).value;
            && (Enabled(cfg, s, ByMain(MainReceivesNil)) <==>
                s.main == Selecting && s.pending == [] && (s.producer == SigningOff || s.producer == Exited))
            && (Enabled(cfg, s, ByMain(MainReceivesNil)) || GotNil(s) ==> s.cancelled)
  {
    Reachable(cfg, q0, steps);
  }

  /** The select at server.go:110 has no ok test, so whatever the configuration and the queue
      there is a run that receives nil, and with a free limiter slot it panics. */
  lemma NilReceiveReachable(cfg: Config, q0: multiset<CheckRef>) returns (steps: seq<Step>)
    ensures Run(cfg, Init(q0), steps).Some?
    ensures Run(cfg, Init(q0), steps).value.main == (if cfg.maxRunning > 0 then Panicked else AcquiringNil)
  {
    var s1 := Do(cfg, Init(q0), Cancel);
    var s2 := Do(cfg, s1, ByProducer(ProducerSeesCancel));
    var s3 := Do(cfg, s2, ByProducer(ProducerCloses));
    var four := if cfg.maxRunning > 0 then [ByMain(MainDereferencesNil)] else [];
    var three := [ByMain(MainReceivesNil)] + four;
    var two := [ByProducer(ProducerCloses)] + three;
    var one := [ByProducer(ProducerSeesCancel)] + two;
    RunStep(cfg, s3, ByMain(MainReceivesNil), four);
    RunStep(cfg, s2, ByProducer(ProducerCloses), three);
    RunStep(cfg, s1, ByProducer(ProducerSeesCancel), two);
    RunStep(cfg, Init(q0), Cancel, one);
    steps := [Cancel] + one;
  }

  lemma RunStep(cfg: Config, s: State, step: Step, rest: seq<Step>)
    requires Enabled(cfg, s, step)
    ensures Run(cfg, s, [step] + rest) == Run(cfg, Do(cfg, s, step), rest)
  {
    assert ([step] + rest)[1..] == rest;
  }

  // ---- progress ----

  function Work(w: Worker): nat {
    match w
    case Executing(_) => 4
    case ReEnqueueing(_) => 3
    case Releasing => 2
    case Signing => 1
    case Finished => 0
  }

  function ProducerWork(p: Producer): nat {
    match p
    case TestingLength => 16
    case Dequeueing => 15
    case Sending(_) => 14
    case Sleeping => 4
    case TestingContext => 3
    case Closing => 2
    case SigningOff => 1
    case Exited => 0
  }

  function MainWork(m: Main): nat {
    match m
    case Acquiring(_) => 11
    case Launching(_) => 10
    case Selecting => 4
    case AcquiringNil => 3
    case Waiting => 2
    case Requeueing(_) => 2
    case Draining => 1
    case Returned => 0
    case Panicked => 0
  }

  /** A bound on the steps that are left once the context is cancelled. */
  function Measure(s: State): nat {
    10 * |s.pending| + ProducerWork(s.producer) + MainWork(s.main) + Sum(s.workers, Work)
  }

  lemma StepDecreases(cfg: Config, s: State, step: Step)
    requires s.cancelled && Enabled(cfg, s, step) && step != Tick
    ensures Measure(Do(cfg, s, step)) < Measure(s) && Do(cfg, s, step).cancelled
  {
    match step {
      case ByWorker(i, w) => SumUpdate(s.workers, i, NextWorker(s.workers[i], w), Work);
      case ByProducer(p) => ProducerDecreases(cfg, s, p);
      case ByMain(m) => MainDecreases(cfg, s, m);
    }
  }

  lemma ProducerDecreases(cfg: Config, s: State, step: ProducerStep)
    requires s.cancelled && ProducerEnabled(cfg, s, step)
    ensures Measure(DoProducer(cfg, s, step)) < Measure(s) && DoProducer(cfg, s, step).cancelled
  {
  }

  lemma MainDecreases(cfg: Config, s: State, step: MainStep)
    requires s.cancelled && MainEnabled(cfg, s, step)
    ensures Measure(DoMain(cfg, s, step)) < Measure(s) && DoMain(cfg, s, step).cancelled
  {
    if step.MainLaunches? {
      SumAppend(s.workers, Executing(s.main.chk), Work);
    }
  }

  /** A cancelled server takes at most Measure steps, ticks of the warning timer aside. */
  lemma {:induction false} CancelledRunsAreShort(cfg: Config, s: State, steps: seq<Step>)
    requires s.cancelled && Run(cfg, s, steps).Some? && Tick !in steps
    ensures |steps| + Measure(Run(cfg, s, steps).value) <= Measure(s)
    decreases |steps|
  {
    if steps != [] {
      StepDecreases(cfg, s, steps[0]);
      CancelledRunsAreShort(cfg, Do(cfg, s, steps[0]), steps[1..]);
    }
  }

  /** Run has nothing more to do.  With no running checks allowed, the nil it may have received
      waits for a limiter slot that does not exist. */
  predicate Ended(cfg: Config, s: State) {
    s.main == Returned || s.main == Panicked || (s.main == AcquiringNil && cfg.maxRunning == 0)
  }

  lemma WorkerCanStep(cfg: Config, s: State, i: nat) returns (step: Step)
    requires Counted(cfg, s) && s.main != Panicked && i < |s.workers| && !s.workers[i].Finished?
    ensures Enabled(cfg, s, step) && step.ByWorker?
  {
    SumAtLeast(s.workers, i, Slot);
    SumAtLeast(s.workers, i, Unsigned);
    match s.workers[i] {
      case Executing(_) => step := ByWorker(i, WorkerExecutes);
      case ReEnqueueing(_) => step := ByWorker(i, WorkerReEnqueues);
      case Releasing => step := ByWorker(i, WorkerReleases);
      case Signing => step := ByWorker(i, WorkerSigns);
    }
  }

  lemma ProducerCanStep(cfg: Config, s: State) returns (step: Step)
    requires Counted(cfg, s) && s.main != Panicked && s.producer != Exited
    ensures Enabled(cfg, s, step) && step.ByProducer?
  {
    match s.producer {
      case TestingContext => step := ByProducer(if s.cancelled then ProducerSeesCancel else ProducerGoesOn);
      case TestingLength =>
        step := ByProducer(if |s.pending| < cfg.maxRunning then ProducerFindsRoom else ProducerFindsFull);
      case Dequeueing => step := ByProducer(ProducerDequeues(None));
      case Sending(_) => step := ByProducer(ProducerSends);
      case Sleeping => step := ByProducer(ProducerWakes);
      case Closing => step := ByProducer(ProducerCloses);
      case SigningOff => step := ByProducer(ProducerSigns);
    }
  }

  /** Until Run has ended some actor can move, and without receiving nil. */
  lemma CanStep(cfg: Config, q0: multiset<CheckRef>, s: State) returns (step: Step)
    requires Inv(cfg, q0, s) && !Ended(cfg, s)
    ensures Enabled(cfg, s, step) && step != Tick && step != Cancel && step != ByMain(MainReceivesNil)
  {
    if s.producer != Exited {
      step := ProducerCanStep(cfg, s);
    } else if Sum(s.workers, Unsigned) > 0 {
      var i := SumWitness(s.workers, Unsigned);
      step := WorkerCanStep(cfg, s, i);
    } else {
      SumMonotone(s.workers, Slot, Unsigned);
      match s.main {
        case Selecting => step := ByMain(MainSeesCancel);
        case Acquiring(_) => step := ByMain(MainAcquires);
        case Launching(_) => step := ByMain(MainLaunches);
        case AcquiringNil => step := ByMain(MainDereferencesNil);
        case Waiting => step := ByMain(MainWaited);
        case Requeueing(_) => step := ByMain(MainRequeues);
        case Draining => step := if s.pending == [] then ByMain(MainReturns) else ByMain(MainDrainsOne);
      }
    }
  }

  /** No reachable state is stuck: until Run has ended, some actor other than the timer and the
      canceller can move. */
  lemma Progress(cfg: Config, q0: multiset<CheckRef>, steps: seq<Step>) returns (step: Step)
    requires Run(cfg, Init(q0), steps).Some?
    requires !Ended(cfg, Run(cfg, Init(q0), steps).value)
    ensures Enabled(cfg, Run(cfg, Init(q0), steps).value, step) && step != Tick && step != Cancel
  {
    Reachable(cfg, q0, steps);
    step := CanStep(cfg, q0, Run(cfg, Init(q0), steps).value);
  }

  /** Every run that can only be extended by a tick or a cancellation has ended: it has returned,
      or panicked, or waits with the nil for a slot that does not exist. */
  lemma MaximalRunsEnd(cfg: Config, q0: multiset<CheckRef>, steps: seq<Step>)
    requires Run(cfg, Init(q0), steps).Some?
    requires var s := Run(cfg, Init(q0), steps).value;
             forall step :: Enabled(cfg, s, step) ==> step == Tick || step == Cancel
    ensures Ended(cfg, Run(cfg, Init(q0), steps).value)
  {
    if !Ended(cfg, Run(cfg, Init(q0), steps).value) {
      var step := Progress(cfg, q0, steps);
    }
  }

  /** The nil receive is the only way into the states that hold nil, and nothing leads out. */
  lemma {:induction false} NilSticks(cfg: Config, s: State, steps: seq<Step>)
    requires Run(cfg, s, steps).Some?
    ensures GotNil(Run(cfg, s, steps).value) <==> GotNil(s) || ByMain(MainReceivesNil) in steps
    decreases |steps|
  {
    if steps != [] {
      NilSticks(cfg, Do(cfg, s, steps[0]), steps[1..]);
      NilStep(cfg, s, steps[0]);
      assert steps == [steps[0]] + steps[1..];
    }
  }

  lemma NilStep(cfg: Config, s: State, step: Step)
    requires Enabled(cfg, s, step)
    ensures GotNil(Do(cfg, s, step)) <==> GotNil(s) || step == ByMain(MainReceivesNil)
  {
  }
}
