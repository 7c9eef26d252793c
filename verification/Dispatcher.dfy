/**
 Server.Run as a step system.

 Four kinds of actors share the check queue, the bounded channels pendingChecks and
 runningLimiter and one WaitGroup: the producer goroutine, the main select loop, one
 goroutine for each dispatched check, and whoever cancels the context.  Every actor has a
 program counter and every step moves one actor past one statement that the others can
 observe.  A check is its address.
 */
module Dispatcher {
  import opened Wrappers
  import opened Counting

  datatype Config = Config(maxRunning: nat, autoReEnqueue: bool)

  /** The producer: its context test, its length test, the Dequeue call, the send and the
      sleep, and then its deferred statements: close the channel, sign off the group. */
  datatype Producer =
    | TestingContext
    | TestingLength
    | Dequeueing
    | Sending(chk: CheckRef)
    | Sleeping
    | Closing
    | SigningOff
    | Exited

  /** The goroutine that called Run.  Acquiring is the blocking send to runningLimiter with a
      check in hand, Launching the go statement after it.  AcquiringNil holds the nil that a
      closed and drained channel yields; the next thing done to it is a field access. */
  datatype Main =
    | Selecting
    | Acquiring(chk: CheckRef)
    | Launching(chk: CheckRef)
    | AcquiringNil
    | Panicked
    | Waiting
    | Draining
    | Requeueing(chk: CheckRef)
    | Returned

  /** A check goroutine: Execute, then the deferred statements in their order. */
  datatype Worker =
    | Executing(chk: CheckRef)
    | ReEnqueueing(chk: CheckRef)
    | Releasing
    | Signing
    | Finished

  /** dequeued, dispatched, late and retired are histories: the checks the producer took from the
      queue, those launched, how many of them after cancellation, and those dropped because
      AutoReEnqueue is off. */
  datatype State = State(
    queue: multiset<CheckRef>,
    producer: Producer,
    pending: seq<CheckRef>,
    closed: bool,
    limiter: nat,
    wg: nat,
    main: Main,
    workers: seq<Worker>,
    cancelled: bool,
    dequeued: seq<CheckRef>,
    dispatched: seq<CheckRef>,
    late: nat,
    retired: multiset<CheckRef>)

  datatype ProducerStep =
    | ProducerSeesCancel
    | ProducerGoesOn
    | ProducerFindsRoom
    | ProducerFindsFull
    | ProducerDequeues(got: Option<CheckRef>)
    | ProducerSends
    | ProducerWakes
    | ProducerCloses
    | ProducerSigns

  datatype MainStep =
    | MainSeesCancel
    | MainReceives
    | MainReceivesNil
    | MainAcquires
    | MainDereferencesNil
    | MainLaunches
    | MainWaited
    | MainDrainsOne
    | MainRequeues
    | MainReturns

  datatype WorkerStep = WorkerExecutes | WorkerReEnqueues | WorkerReleases | WorkerSigns

  /** Tick is the select branch of the warning timer. */
  datatype Step =
    | Cancel
    | Tick
    | ByProducer(p: ProducerStep)
    | ByMain(m: MainStep)
    | ByWorker(i: nat, w: WorkerStep)

  function Init(queue: multiset<CheckRef>): State {
    State(queue, TestingContext, [], false, 0, 1, Selecting, [], false, [], [], 0, multiset{})
  }

  predicate ProducerEnabled(cfg: Config, s: State, step: ProducerStep) {
    match step
    case ProducerSeesCancel => s.producer == TestingContext && s.cancelled
    case ProducerGoesOn => s.producer == TestingContext && !s.cancelled
    case ProducerFindsRoom => s.producer == TestingLength && |s.pending| < cfg.maxRunning
    case ProducerFindsFull => s.producer == TestingLength && |s.pending| >= cfg.maxRunning
    case ProducerDequeues(got) => s.producer == Dequeueing && (got.Some? ==> got.value in s.queue)
    case ProducerSends => s.producer.Sending? && |s.pending| < cfg.maxRunning
    case ProducerWakes => s.producer == Sleeping
    case ProducerCloses => s.producer == Closing
    case ProducerSigns => s.producer == SigningOff && s.wg > 0
  }

  predicate MainEnabled(cfg: Config, s: State, step: MainStep) {
    match step
    case MainSeesCancel => s.main == Selecting && s.cancelled
    case MainReceives => s.main == Selecting && s.pending != []
    case MainReceivesNil => s.main == Selecting && s.pending == [] && s.closed
    case MainAcquires => s.main.Acquiring? && s.limiter < cfg.maxRunning
    case MainDereferencesNil => s.main == AcquiringNil && s.limiter < cfg.maxRunning
    case MainLaunches => s.main.Launching?
    case MainWaited => s.main == Waiting && s.wg == 0
    case MainDrainsOne => s.main == Draining && s.pending != []
    case MainRequeues => s.main.Requeueing?
    case MainReturns => s.main == Draining && s.pending == [] && s.closed
  }

  predicate WorkerEnabled(s: State, i: nat, step: WorkerStep) {
    i < |s.workers| &&
    match step
    case WorkerExecutes => s.workers[i].Executing?
    case WorkerReEnqueues => s.workers[i].ReEnqueueing?
    case WorkerReleases => s.workers[i] == Releasing && s.limiter > 0
    case WorkerSigns => s.workers[i] == Signing && s.wg > 0
  }

  /** Whether the step's actor is at that statement and the statement does not block. */
  predicate Enabled(cfg: Config, s: State, step: Step) {
    s.main != Panicked &&
    match step
    case Cancel => !s.cancelled
    case Tick => s.main == Selecting
    case ByProducer(p) => ProducerEnabled(cfg, s, p)
    case ByMain(m) => MainEnabled(cfg, s, m)
    case ByWorker(i, w) => WorkerEnabled(s, i, w)
  }

  function DoProducer(cfg: Config, s: State, step: ProducerStep): State
    requires ProducerEnabled(cfg, s, step)
  {
    match step
    case ProducerSeesCancel => s.(producer := Closing)
    case ProducerGoesOn => s.(producer := TestingLength)
    case ProducerFindsRoom => s.(producer := Dequeueing)
    case ProducerFindsFull => s.(producer := Sleeping)
    case ProducerDequeues(got) =>
      if got.Some?
      then s.(queue := s.queue - multiset{got.value},
              producer := Sending(got.value),
              dequeued := s.dequeued + [got.value])
      else s.(producer := Sleeping)
    case ProducerSends => s.(pending := s.pending + [s.producer.chk], producer := TestingContext)
    case ProducerWakes => s.(producer := TestingContext)
    case ProducerCloses => s.(closed := true, producer := SigningOff)
    case ProducerSigns => s.(wg := s.wg - 1, producer := Exited)
  }

  function DoMain(cfg: Config, s: State, step: MainStep): State
    requires MainEnabled(cfg, s, step)
  {
    match step
    case MainSeesCancel => s.(main := Waiting)
    case MainReceives => s.(main := Acquiring(s.pending[0]), pending := s.pending[1..])
    case MainReceivesNil => s.(main := AcquiringNil)
    case MainAcquires => s.(main := Launching(s.main.chk), limiter := s.limiter + 1)
    case MainDereferencesNil => s.(main := Panicked, limiter := s.limiter + 1)
    case MainLaunches =>
      s.(main := Selecting,
         wg := s.wg + 1,
         workers := s.workers + [Executing(s.main.chk)],
         dispatched := s.dispatched + [s.main.chk],
         late := if s.cancelled then s.late + 1 else s.late)
    case MainWaited => s.(main := Draining)
    case MainDrainsOne => s.(main := Requeueing(s.pending[0]), pending := s.pending[1..])
    case MainRequeues => s.(main := Draining, queue := s.queue + multiset{s.main.chk})
    case MainReturns => s.(main := Returned)
  }

  /** Where the goroutine is after its step. */
  function NextWorker(w: Worker, step: WorkerStep): Worker
    requires step.WorkerExecutes? ==> w.Executing?
  {
    match step
    case WorkerExecutes => ReEnqueueing(w.chk)
    case WorkerReEnqueues => Releasing
    case WorkerReleases => Signing
    case WorkerSigns => Finished
  }

  function DoWorker(cfg: Config, s: State, i: nat, step: WorkerStep): State
    requires WorkerEnabled(s, i, step)
  {
    var t := s.(workers := s.workers[i := NextWorker(s.workers[i], step)]);
    match step
    case WorkerExecutes => t
    case WorkerReEnqueues =>
      if cfg.autoReEnqueue then t.(queue := s.queue + multiset{s.workers[i].chk})
      else t.(retired := s.retired + multiset{s.workers[i].chk})
    case WorkerReleases => t.(limiter := s.limiter - 1)
    case WorkerSigns => t.(wg := s.wg - 1)
  }

  function Do(cfg: Config, s: State, step: Step): State
    requires Enabled(cfg, s, step)
  {
    match step
    case Cancel => s.(cancelled := true)
    case Tick => s
    case ByProducer(p) => DoProducer(cfg, s, p)
    case ByMain(m) => DoMain(cfg, s, m)
    case ByWorker(i, w) => DoWorker(cfg, s, i, w)
  }

  /** The state after the steps, or None when one of them is not enabled in its turn. */
  function Run(cfg: Config, s: State, steps: seq<Step>): Option<State>
    decreases |steps|
  {
    if steps == [] then Some(s)
    else if Enabled(cfg, s, steps[0]) then Run(cfg, Do(cfg, s, steps[0]), steps[1..])
    else None
  }

  // ---- what each actor holds ----

  function Slot(w: Worker): nat {
    if w.Executing? || w.ReEnqueueing? || w.Releasing? then 1 else 0
  }

  function Unsigned(w: Worker): nat {
    if w.Finished? then 0 else 1
  }

  function Running(w: Worker): nat {
    if w.Executing? then 1 else 0
  }

  /** How many of the worker's hands hold c: the check it executes or is about to put back. */
  function Holding(c: CheckRef): Worker -> nat {
    (w: Worker) => Bit((w.Executing? || w.ReEnqueueing?) && w.chk == c)
  }

  function InProducer(p: Producer, c: CheckRef): nat {
    Bit(p.Sending? && p.chk == c)
  }

  function InMain(m: Main, c: CheckRef): nat {
    Bit((m.Acquiring? || m.Launching? || m.Requeueing?) && m.chk == c)
  }

  /** How many times c occurs in the server: queue, producer's hand, buffer, main loop's hand
      and the hands of the check goroutines. */
  function Count(s: State, c: CheckRef): nat {
    s.queue[c] + InProducer(s.producer, c) + Occurs(s.pending, c) + InMain(s.main, c)
    + Sum(s.workers, Holding(c))
  }

  // ---- the invariant ----

  /** What may still be dispatched once the context is cancelled. */
  function Budget(s: State): nat {
    |s.pending|
    + Bit(s.producer.TestingLength? || s.producer.Dequeueing? || s.producer.Sending?)
    + Bit(s.main.Acquiring? || s.main.Launching?)
  }

  /** c is accounted for: it is held or retired as often as it was queued at the start. */
  predicate ConservedOne(cfg: Config, q0: multiset<CheckRef>, s: State, c: CheckRef) {
    && Count(s, c) + s.retired[c] == q0[c]
    && (cfg.autoReEnqueue ==> s.retired[c] == 0)
    && (!cfg.autoReEnqueue ==> s.retired[c] + Sum(s.workers, Holding(c)) == Occurs(s.dispatched, c))
  }

  ghost predicate Conserved(cfg: Config, q0: multiset<CheckRef>, s: State) {
    forall c :: ConservedOne(cfg, q0, s, c)
  }

  /** The channels stay within their capacities and the group counts who has not signed off. */
  predicate Counted(cfg: Config, s: State) {
    && |s.pending| <= cfg.maxRunning
    && (s.producer.Dequeueing? || s.producer.Sending? ==> |s.pending| < cfg.maxRunning)
    && s.limiter == Sum(s.workers, Slot) + Bit(s.main.Launching? || s.main.Panicked?)
    && s.limiter <= cfg.maxRunning
    && (s.main.Acquiring? ==> cfg.maxRunning > 0)
    && s.wg == Sum(s.workers, Unsigned) + Bit(s.producer != Exited)
  }

  /** The order of events around cancellation. */
  predicate Staged(s: State) {
    && (s.closed <==> s.producer.SigningOff? || s.producer.Exited?)
    && (s.producer.Closing? || s.producer.SigningOff? || s.producer.Exited? ==> s.cancelled)
    && (s.main.Waiting? || s.main.Draining? || s.main.Requeueing? || s.main.Returned? ==> s.cancelled)
    && (s.main.Draining? || s.main.Requeueing? || s.main.Returned? ==> s.wg == 0)
    && (s.main.Returned? ==> s.pending == [])
    && (s.main.AcquiringNil? || s.main.Panicked? ==> s.cancelled && s.closed && s.pending == [])
  }

  predicate LateBounded(cfg: Config, s: State) {
    if s.cancelled then s.late + Budget(s) <= cfg.maxRunning + 2 else s.late == 0
  }

  function OnTheWay(s: State): seq<CheckRef> {
    (if s.main.Acquiring? || s.main.Launching? then [s.main.chk] else [])
    + s.pending
    + (if s.producer.Sending? then [s.producer.chk] else [])
  }

  /** Checks are launched in the order in which the queue gave them; until the shutdown drain every
      one is launched, or in the main loop's hand, the buffer and the producer's hand in that order. */
  predicate InOrder(s: State) {
    if s.main.Draining? || s.main.Requeueing? || s.main.Returned? then s.dispatched <= s.dequeued
    else s.dequeued == s.dispatched + OnTheWay(s)
  }

  predicate Accounted(cfg: Config, s: State) {
    Counted(cfg, s) && Staged(s) && LateBounded(cfg, s)
  }

  ghost predicate Inv(cfg: Config, q0: multiset<CheckRef>, s: State) {
    Conserved(cfg, q0, s) && Accounted(cfg, s) && InOrder(s)
  }

  lemma WorkerKeepsAccounts(cfg: Config, s: State, i: nat, step: WorkerStep)
    requires Accounted(cfg, s) && WorkerEnabled(s, i, step)
    ensures Accounted(cfg, DoWorker(cfg, s, i, step))
  {
    var w := NextWorker(s.workers[i], step);
    SumUpdate(s.workers, i, w, Slot);
    SumUpdate(s.workers, i, w, Unsigned);
  }

  lemma WorkerKeepsOrder(cfg: Config, s: State, i: nat, step: WorkerStep)
    requires InOrder(s) && WorkerEnabled(s, i, step)
    ensures InOrder(DoWorker(cfg, s, i, step))
  {
    assert OnTheWay(DoWorker(cfg, s, i, step)) == OnTheWay(s);
  }

  lemma WorkerKeepsInv(cfg: Config, q0: multiset<CheckRef>, s: State, i: nat, step: WorkerStep)
    requires Inv(cfg, q0, s) && WorkerEnabled(s, i, step)
    ensures Inv(cfg, q0, DoWorker(cfg, s, i, step))
  {
    WorkerKeepsAccounts(cfg, s, i, step);
    WorkerKeepsOrder(cfg, s, i, step);
    forall c
      ensures ConservedOne(cfg, q0, DoWorker(cfg, s, i, step), c)
    {
      WorkerConservesOne(cfg, q0, s, i, step, c);
    }
  }

  lemma WorkerConservesOne(cfg: Config, q0: multiset<CheckRef>, s: State, i: nat, step: WorkerStep, c: CheckRef)
    requires ConservedOne(cfg, q0, s, c) && WorkerEnabled(s, i, step)
    ensures ConservedOne(cfg, q0, DoWorker(cfg, s, i, step), c)
  {
    SumUpdate(s.workers, i, NextWorker(s.workers[i], step), Holding(c));
  }

  lemma ProducerKeepsOrder(cfg: Config, s: State, step: ProducerStep)
    requires InOrder(s) && Counted(cfg, s) && Staged(s) && ProducerEnabled(cfg, s, step)
    ensures InOrder(DoProducer(cfg, s, step))
  {
    if !(s.main.Draining? || s.main.Requeueing? || s.main.Returned?)
       && (step.ProducerDequeues? || step.ProducerSends?) {
      var t := DoProducer(cfg, s, step);
      assert t.dequeued == t.dispatched + OnTheWay(t);
    }
  }

  lemma MainKeepsOrder(cfg: Config, s: State, step: MainStep)
    requires InOrder(s) && MainEnabled(cfg, s, step)
    ensures InOrder(DoMain(cfg, s, step))
  {
    var t := DoMain(cfg, s, step);
    if step.MainReceives? || step.MainLaunches? {
      assert t.dispatched + OnTheWay(t) == s.dispatched + OnTheWay(s);
    }
  }

  lemma ProducerKeepsAccounts(cfg: Config, s: State, step: ProducerStep)
    requires Accounted(cfg, s) && s.main != Panicked && ProducerEnabled(cfg, s, step)
    ensures Accounted(cfg, DoProducer(cfg, s, step))
  {
  }

  lemma ProducerKeepsInv(cfg: Config, q0: multiset<CheckRef>, s: State, step: ProducerStep)
    requires Inv(cfg, q0, s) && s.main != Panicked && ProducerEnabled(cfg, s, step)
    ensures Inv(cfg, q0, DoProducer(cfg, s, step))
  {
    ProducerKeepsOrder(cfg, s, step);
    ProducerKeepsAccounts(cfg, s, step);
    forall c
      ensures ConservedOne(cfg, q0, DoProducer(cfg, s, step), c)
    {
      ProducerConservesOne(cfg, q0, s, step, c);
    }
  }

  lemma ProducerConservesOne(cfg: Config, q0: multiset<CheckRef>, s: State, step: ProducerStep, c: CheckRef)
    requires ConservedOne(cfg, q0, s, c) && ProducerEnabled(cfg, s, step)
    ensures ConservedOne(cfg, q0, DoProducer(cfg, s, step), c)
  {
    if step.ProducerSends? {
      OccursAppend(s.pending, s.producer.chk, c);
    }
  }

  lemma MainKeepsAccounts(cfg: Config, s: State, step: MainStep)
    requires Accounted(cfg, s) && MainEnabled(cfg, s, step)
    ensures Accounted(cfg, DoMain(cfg, s, step))
  {
    if step.MainLaunches? {
      SumAppend(s.workers, Executing(s.main.chk), Slot);
      SumAppend(s.workers, Executing(s.main.chk), Unsigned);
    }
  }

  lemma MainKeepsInv(cfg: Config, q0: multiset<CheckRef>, s: State, step: MainStep)
    requires Inv(cfg, q0, s) && MainEnabled(cfg, s, step)
    ensures Inv(cfg, q0, DoMain(cfg, s, step))
  {
    MainKeepsOrder(cfg, s, step);
    MainKeepsAccounts(cfg, s, step);
    forall c
      ensures ConservedOne(cfg, q0, DoMain(cfg, s, step), c)
    {
      MainConservesOne(cfg, q0, s, step, c);
    }
  }

  lemma LaunchConservesOne(cfg: Config, q0: multiset<CheckRef>, s: State, c: CheckRef)
    requires ConservedOne(cfg, q0, s, c) && s.main.Launching?
    ensures ConservedOne(cfg, q0, DoMain(cfg, s, MainLaunches), c)
  {
    SumAppend(s.workers, Executing(s.main.chk), Holding(c));
    OccursAppend(s.dispatched, s.main.chk, c);
  }

  lemma TakeConservesOne(cfg: Config, q0: multiset<CheckRef>, s: State, step: MainStep, c: CheckRef)
    requires ConservedOne(cfg, q0, s, c) && MainEnabled(cfg, s, step) && (step.MainReceives? || step.MainDrainsOne?)
    ensures ConservedOne(cfg, q0, DoMain(cfg, s, step), c)
  {
  }

  lemma MainConservesOne(cfg: Config, q0: multiset<CheckRef>, s: State, step: MainStep, c: CheckRef)
    requires ConservedOne(cfg, q0, s, c) && MainEnabled(cfg, s, step)
    ensures ConservedOne(cfg, q0, DoMain(cfg, s, step), c)
  {
    match step {
      case MainLaunches => LaunchConservesOne(cfg, q0, s, c);
      case MainReceives => TakeConservesOne(cfg, q0, s, step, c);
      case MainDrainsOne => TakeConservesOne(cfg, q0, s, step, c);
      case _ =>
    }
  }

  lemma StepKeepsInv(cfg: Config, q0: multiset<CheckRef>, s: State, step: Step)
    requires Inv(cfg, q0, s) && Enabled(cfg, s, step)
    ensures Inv(cfg, q0, Do(cfg, s, step))
  {
    match step {
      case Cancel =>
        forall c
          ensures ConservedOne(cfg, q0, Do(cfg, s, step), c)
        {
          assert ConservedOne(cfg, q0, s, c);
        }
      case Tick =>
      case ByProducer(p) => ProducerKeepsInv(cfg, q0, s, p);
      case ByMain(m) => MainKeepsInv(cfg, q0, s, m);
      case ByWorker(i, w) => WorkerKeepsInv(cfg, q0, s, i, w);
    }
  }

  /** Every state of every interleaving keeps the invariant. */
  lemma {:induction false} RunKeepsInv(cfg: Config, q0: multiset<CheckRef>, s: State, steps: seq<Step>)
    requires Inv(cfg, q0, s) && Run(cfg, s, steps).Some?
    ensures Inv(cfg, q0, Run(cfg, s, steps).value)
    decreases |steps|
  {
    if steps != [] {
      StepKeepsInv(cfg, q0, s, steps[0]);
      RunKeepsInv(cfg, q0, Do(cfg, s, steps[0]), steps[1..]);
    }
  }

  lemma Reachable(cfg: Config, q0: multiset<CheckRef>, steps: seq<Step>)
    requires Run(cfg, Init(q0), steps).Some?
    ensures Inv(cfg, q0, Run(cfg, Init(q0), steps).value)
  {
    RunKeepsInv(cfg, q0, Init(q0), steps);
  }
}
