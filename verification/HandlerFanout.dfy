/**
 Check.runResultHandlerProcessing as a step system: the caller spawns one goroutine for each
 handler and one closer, then collects errors from an unbuffered channel until it is closed.
 A send on the unbuffered channel and the collector's receive are one step.
 */
module HandlerFanout {
  import opened Wrappers
  import opened Counting

  /** The goroutine of one handler.  Its deferred wg.Done is the step from Deferred to Gone. */
  datatype Handler = NotSpawned | Processing | Blocked(err: Error) | Deferred | Gone

  datatype Caller = Spawning(next: nat) | SpawningCloser | Collecting | Panicked | Returned

  datatype Closer = Unborn | AwaitingGroup | ClosingChannel | Closed

  datatype State = State(
    handlers: seq<Handler>,
    caller: Caller,
    closer: Closer,
    wg: nat,
    channelClosed: bool,
    errs: seq<Error>)

  datatype Step =
    | Spawn
    | SpawnCloser
    | Process(i: nat)
    | Send(i: nat)
    | SendOnClosed(i: nat)
    | SignOff(i: nat)
    | GroupDone
    | Close
    | Finish

  function AfterSpawning(next: nat, n: nat): Caller {
    if next < n then Spawning(next) else SpawningCloser
  }

  /** outcome[i] is what the Process call of handler i returns; wg.Add came before the loop. */
  function Init(outcome: seq<Option<Error>>): State {
    State(seq(|outcome|, _ => NotSpawned), AfterSpawning(0, |outcome|), Unborn, |outcome|, false, [])
  }

  predicate At(s: State, i: nat) {
    i < |s.handlers|
  }

  predicate Enabled(outcome: seq<Option<Error>>, s: State, step: Step) {
    s.caller != Panicked && |s.handlers| == |outcome| &&
    match step
    case Spawn => s.caller.Spawning? && s.caller.next < |s.handlers|
    case SpawnCloser => s.caller == SpawningCloser
    case Process(i) => At(s, i) && s.handlers[i] == Processing
    case Send(i) => At(s, i) && s.handlers[i].Blocked? && s.caller == Collecting && !s.channelClosed
    case SendOnClosed(i) => At(s, i) && s.handlers[i].Blocked? && s.channelClosed
    case SignOff(i) => At(s, i) && s.handlers[i] == Deferred && s.wg > 0
    case GroupDone => s.closer == AwaitingGroup && s.wg == 0
    case Close => s.closer == ClosingChannel
    case Finish => s.caller == Collecting && s.channelClosed
  }

  function Do(outcome: seq<Option<Error>>, s: State, step: Step): State
    requires Enabled(outcome, s, step)
  {
    match step
    case Spawn =>
      s.(handlers := s.handlers[s.caller.next := Processing],
         caller := AfterSpawning(s.caller.next + 1, |s.handlers|))
    case SpawnCloser => s.(closer := AwaitingGroup, caller := Collecting)
    case Process(i) =>
      s.(handlers := s.handlers[i := if outcome[i].Some? then Blocked(outcome[i].value) else Deferred])
    case Send(i) => s.(handlers := s.handlers[i := Deferred], errs := s.errs + [s.handlers[i].err])
    case SendOnClosed(i) => s.(caller := Panicked)
    case SignOff(i) => s.(handlers := s.handlers[i := Gone], wg := s.wg - 1)
    case GroupDone => s.(closer := ClosingChannel)
    case Close => s.(closer := Closed, channelClosed := true)
    case Finish => s.(caller := Returned)
  }

  function Run(outcome: seq<Option<Error>>, s: State, steps: seq<Step>): Option<State>
    decreases |steps|
  {
    if steps == [] then Some(s)
    else if Enabled(outcome, s, steps[0]) then Run(outcome, Do(outcome, s, steps[0]), steps[1..])
    else None
  }

  // ---- counting ----

  /** The errors the handlers return, in handler order. */
  function Failures(outcome: seq<Option<Error>>): seq<Error> {
    if outcome == [] then []
    else if outcome[0].Some? then [outcome[0].value] + Failures(outcome[1..])
    else Failures(outcome[1..])
  }

  /** How often a handler still owes the collector e. */
  function Owes(h: Handler, o: Option<Error>, e: Error): nat {
    match h
    case NotSpawned => Bit(o == Some(e))
    case Processing => Bit(o == Some(e))
    case Blocked(err) => Bit(err == e)
    case Deferred => 0
    case Gone => 0
  }

  function Owed(hs: seq<Handler>, outcome: seq<Option<Error>>, e: Error): nat
    requires |hs| == |outcome|
  {
    if hs == [] then 0 else Owes(hs[0], outcome[0], e) + Owed(hs[1..], outcome[1..], e)
  }

  function Present(h: Handler): nat {
    if h.Gone? then 0 else 1
  }

  lemma {:induction false} OwedUpdate(hs: seq<Handler>, outcome: seq<Option<Error>>, i: nat, h: Handler, e: Error)
    requires |hs| == |outcome| && i < |hs|
    ensures Owed(hs[i := h], outcome, e) + Owes(hs[i], outcome[i], e)
         == Owed(hs, outcome, e) + Owes(h, outcome[i], e)
  {
    var us := hs[i := h];
    if i == 0 {
      assert us[1..] == hs[1..];
    } else {
      assert us[1..] == hs[1..][i - 1 := h];
      OwedUpdate(hs[1..], outcome[1..], i - 1, h, e);
    }
  }

  /** Before anything ran the handlers owe exactly the failures. */
  lemma {:induction false} OwedAtStart(hs: seq<Handler>, outcome: seq<Option<Error>>, e: Error)
    requires |hs| == |outcome| && forall i :: 0 <= i < |hs| ==> hs[i] == NotSpawned
    ensures Owed(hs, outcome, e) == Occurs(Failures(outcome), e)
    ensures Sum(hs, Present) == |hs|
  {
    if hs != [] {
      OwedAtStart(hs[1..], outcome[1..], e);
      if outcome[0].Some? {
        assert Failures(outcome)[1..] == Failures(outcome[1..]);
      }
    }
  }

  lemma {:induction false} NothingOwed(hs: seq<Handler>, outcome: seq<Option<Error>>, e: Error)
    requires |hs| == |outcome| && Sum(hs, Present) == 0
    ensures Owed(hs, outcome, e) == 0
  {
    if hs != [] {
      NothingOwed(hs[1..], outcome[1..], e);
    }
  }

  lemma {:induction false} FailureOccurs(outcome: seq<Option<Error>>, i: nat)
    requires i < |outcome| && outcome[i].Some?
    ensures Occurs(Failures(outcome), outcome[i].value) >= 1
  {
    var rest := Failures(outcome[1..]);
    if outcome[0].Some? {
      assert Failures(outcome)[1..] == rest;
    }
    if i > 0 {
      FailureOccurs(outcome[1..], i - 1);
    }
  }

  // ---- the invariant ----

  predicate SpawnedUpTo(s: State) {
    match s.caller
    case Spawning(next) =>
      next < |s.handlers| && forall i :: 0 <= i < |s.handlers| ==> (s.handlers[i] == NotSpawned <==> next <= i)
    case _ => forall i :: 0 <= i < |s.handlers| ==> s.handlers[i] != NotSpawned
  }

  predicate Ordered(s: State) {
    && s.caller != Panicked
    && (s.closer == Unborn <==> s.caller.Spawning? || s.caller == SpawningCloser)
    && (s.closer.ClosingChannel? || s.closer.Closed? ==> s.wg == 0)
    && (s.channelClosed <==> s.closer == Closed)
    && (s.caller == Returned ==> s.channelClosed)
  }

  ghost predicate Inv(outcome: seq<Option<Error>>, s: State) {
    && |s.handlers| == |outcome|
    && SpawnedUpTo(s)
    && Ordered(s)
    && s.wg == Sum(s.handlers, Present)
    && (forall e {:trigger Occurs(s.errs, e)} ::
          Occurs(s.errs, e) + Owed(s.handlers, outcome, e) == Occurs(Failures(outcome), e))
  }

  lemma InitInv(outcome: seq<Option<Error>>)
    ensures Inv(outcome, Init(outcome))
  {
    var s := Init(outcome);
    OwedAtStart(s.handlers, outcome, "");
    forall e {:trigger Occurs(s.errs, e)}
      ensures Occurs(s.errs, e) + Owed(s.handlers, outcome, e) == Occurs(Failures(outcome), e)
    {
      OwedAtStart(s.handlers, outcome, e);
    }
  }

  function Index(s: State, step: Step): Option<nat> {
    match step
    case Spawn => if s.caller.Spawning? then Some(s.caller.next) else None
    case Process(i) => Some(i)
    case Send(i) => Some(i)
    case SignOff(i) => Some(i)
    case _ => None
  }

  lemma StepKeepsOwed(outcome: seq<Option<Error>>, s: State, step: Step, e: Error)
    requires Inv(outcome, s) && Enabled(outcome, s, step)
    ensures var t := Do(outcome, s, step);
            |t.handlers| == |outcome| &&
            Occurs(t.errs, e) + Owed(t.handlers, outcome, e) == Occurs(Failures(outcome), e)
  {
    var t := Do(outcome, s, step);
    assert Occurs(s.errs, e) + Owed(s.handlers, outcome, e) == Occurs(Failures(outcome), e);
    if Index(s, step).Some? {
      var i := Index(s, step).value;
      OwedUpdate(s.handlers, outcome, i, t.handlers[i], e);
    }
    if step.Send? {
      OccursAppend(s.errs, s.handlers[step.i].err, e);
    }
  }

  /** A blocked sender keeps the group from finishing, so the channel is still open. */
  lemma NoSendOnClosed(outcome: seq<Option<Error>>, s: State, i: nat)
    requires Inv(outcome, s)
    ensures !Enabled(outcome, s, SendOnClosed(i))
  {
    if i < |s.handlers| {
      SumAtLeast(s.handlers, i, Present);
    }
  }

  lemma StepKeepsInv(outcome: seq<Option<Error>>, s: State, step: Step)
    requires Inv(outcome, s) && Enabled(outcome, s, step)
    ensures Inv(outcome, Do(outcome, s, step))
  {
    var t := Do(outcome, s, step);
    if Index(s, step).Some? {
      var i := Index(s, step).value;
      SumUpdate(s.handlers, i, t.handlers[i], Present);
    }
    if step.SendOnClosed? {
      NoSendOnClosed(outcome, s, step.i);
    }
    forall e {:trigger Occurs(t.errs, e)}
      ensures Occurs(t.errs, e) + Owed(t.handlers, outcome, e) == Occurs(Failures(outcome), e)
    {
      StepKeepsOwed(outcome, s, step, e);
    }
  }

  lemma {:induction false} RunKeepsInv(outcome: seq<Option<Error>>, s: State, steps: seq<Step>)
    requires Inv(outcome, s) && Run(outcome, s, steps).Some?
    ensures Inv(outcome, Run(outcome, s, steps).value)
    decreases |steps|
  {
    if steps != [] {
      StepKeepsInv(outcome, s, steps[0]);
      RunKeepsInv(outcome, Do(outcome, s, steps[0]), steps[1..]);
    }
  }

  lemma Reachable(outcome: seq<Option<Error>>, steps: seq<Step>)
    requires Run(outcome, Init(outcome), steps).Some?
    ensures Inv(outcome, Run(outcome, Init(outcome), steps).value)
  {
    InitInv(outcome);
    RunKeepsInv(outcome, Init(outcome), steps);
  }

  // ---- the laws ----

  /** No interleaving sends on the closed channel. */
  lemma NeverPanics(outcome: seq<Option<Error>>, steps: seq<Step>)
    requires Run(outcome, Init(outcome), steps).Some?
    ensures Run(outcome, Init(outcome), steps).value.caller != Panicked
    ensures forall i :: !Enabled(outcome, Run(outcome, Init(outcome), steps).value, SendOnClosed(i))
  {
    Reachable(outcome, steps);
    forall i: nat
      ensures !Enabled(outcome, Run(outcome, Init(outcome), steps).value, SendOnClosed(i))
    {
      NoSendOnClosed(outcome, Run(outcome, Init(outcome), steps).value, i);
    }
  }

  /** No interleaving deadlocks: until the caller has returned some goroutine can move. */
  lemma Progress(outcome: seq<Option<Error>>, steps: seq<Step>) returns (step: Step)
    requires Run(outcome, Init(outcome), steps).Some?
    requires Run(outcome, Init(outcome), steps).value.caller != Returned
    ensures Enabled(outcome, Run(outcome, Init(outcome), steps).value, step)
  {
    Reachable(outcome, steps);
    var s := Run(outcome, Init(outcome), steps).value;
    match s.caller {
      case Spawning(_) => step := Spawn;
      case SpawningCloser => step := SpawnCloser;
      case Collecting =>
        if s.channelClosed {
          step := Finish;
        } else if s.wg == 0 {
          step := if s.closer == AwaitingGroup then GroupDone else Close;
        } else {
          var i := SumWitness(s.handlers, Present);
          step := match s.handlers[i]
            case Processing => Process(i)
            case Blocked(_) => Send(i)
            case _ => SignOff(i);
        }
    }
  }

  function Work(h: Handler): nat {
    match h
    case NotSpawned => 4
    case Processing => 3
    case Blocked(_) => 2
    case Deferred => 1
    case Gone => 0
  }

  function Measure(s: State): nat {
    Sum(s.handlers, Work)
    + (match s.caller case Returned => 0 case Panicked => 0 case Collecting => 1 case _ => 2)
    + (match s.closer case Closed => 0 case ClosingChannel => 1 case _ => 2)
  }

  lemma {:induction false} MeasureAtStart(hs: seq<Handler>)
    requires forall i :: 0 <= i < |hs| ==> hs[i] == NotSpawned
    ensures Sum(hs, Work) == 4 * |hs|
  {
    if hs != [] {
      MeasureAtStart(hs[1..]);
    }
  }

  lemma StepDecreases(outcome: seq<Option<Error>>, s: State, step: Step)
    requires Inv(outcome, s) && Enabled(outcome, s, step)
    ensures Measure(Do(outcome, s, step)) < Measure(s)
  {
    var t := Do(outcome, s, step);
    if Index(s, step).Some? {
      var i := Index(s, step).value;
      SumUpdate(s.handlers, i, t.handlers[i], Work);
    } else if step.SendOnClosed? {
      NoSendOnClosed(outcome, s, step.i);
    }
  }

  lemma {:induction false} RunIsShort(outcome: seq<Option<Error>>, s: State, steps: seq<Step>)
    requires Inv(outcome, s) && Run(outcome, s, steps).Some?
    ensures |steps| + Measure(Run(outcome, s, steps).value) <= Measure(s)
    decreases |steps|
  {
    if steps != [] {
      StepDecreases(outcome, s, steps[0]);
      StepKeepsInv(outcome, s, steps[0]);
      RunIsShort(outcome, Do(outcome, s, steps[0]), steps[1..]);
    }
  }

  /** Every interleaving ends after at most four steps a handler and four more. */
  lemma Terminates(outcome: seq<Option<Error>>, steps: seq<Step>)
    requires Run(outcome, Init(outcome), steps).Some?
    ensures |steps| <= 4 * |outcome| + 4
  {
    InitInv(outcome);
    MeasureAtStart(Init(outcome).handlers);
    RunIsShort(outcome, Init(outcome), steps);
  }

  /** A run that cannot be extended has returned, with every handler goroutine gone, and what it
      collected is exactly what the failing handlers returned. */
  lemma CollectsExactlyTheFailures(outcome: seq<Option<Error>>, steps: seq<Step>)
    requires Run(outcome, Init(outcome), steps).Some?
    requires forall step :: !Enabled(outcome, Run(outcome, Init(outcome), steps).value, step)
    ensures var s := Run(outcome, Init(outcome), steps).value;
            && s.caller == Returned
            && (forall i :: 0 <= i < |s.handlers| ==> s.handlers[i] == Gone)
            && multiset(s.errs) == multiset(Failures(outcome))
  {
    Reachable(outcome, steps);
    var s := Run(outcome, Init(outcome), steps).value;
    if s.caller != Returned {
      var step := Progress(outcome, steps);
    }
    forall i | 0 <= i < |s.handlers|
      ensures s.handlers[i] == Gone
    {
      SumAtLeast(s.handlers, i, Present);
    }
    forall e
      ensures multiset(s.errs)[e] == multiset(Failures(outcome))[e]
    {
      NothingOwed(s.handlers, outcome, e);
      OccursIsMultiplicity(s.errs, e);
      OccursIsMultiplicity(Failures(outcome), e);
      assert Occurs(s.errs, e) + Owed(s.handlers, outcome, e) == Occurs(Failures(outcome), e);
    }
  }

  /** What the handlers' goroutines send, None for a handler that does not fail, and one of their
      interleavings. */
  datatype Handling = Handling(outcome: seq<Option<Error>>, steps: seq<Step>)

  /** The interleaving is a run that has come to its end. */
  ghost predicate Complete(h: Handling) {
    && Run(h.outcome, Init(h.outcome), h.steps).Some?
    && forall step :: !Enabled(h.outcome, Run(h.outcome, Init(h.outcome), h.steps).value, step)
  }

  function Collected(h: Handling): seq<Error> {
    var s := Run(h.outcome, Init(h.outcome), h.steps);
    if s.Some? then s.value.errs else []
  }

  lemma CollectedAreFailures(h: Handling)
    requires Complete(h)
    ensures multiset(Collected(h)) == multiset(Failures(h.outcome))
  {
    CollectsExactlyTheFailures(h.outcome, h.steps);
  }

  /** Why the group is awaited in its own goroutine.  A run without SpawnCloser is one in which
      nobody collects yet.  Awaiting the group there can end if and only if no handler fails: one
      failing handler is enough to block it for ever. */
  lemma AwaitingBeforeCollecting(outcome: seq<Option<Error>>, steps: seq<Step>)
    requires Run(outcome, Init(outcome), steps).Some? && SpawnCloser !in steps
    requires forall step :: Enabled(outcome, Run(outcome, Init(outcome), steps).value, step) ==> step == SpawnCloser
    ensures Run(outcome, Init(outcome), steps).value.wg == 0 <==> forall i :: 0 <= i < |outcome| ==> outcome[i].None?
  {
    Reachable(outcome, steps);
    InitInv(outcome);
    NobodyCollects(outcome, Init(outcome), steps);
    var s := Run(outcome, Init(outcome), steps).value;
    if i :| 0 <= i < |outcome| && outcome[i].Some? {
      FailureHoldsGroup(outcome, s, i);
    } else if s.wg > 0 {
      var step := CleanHandlersMove(outcome, s);
    }
  }

  lemma FailureHoldsGroup(outcome: seq<Option<Error>>, s: State, i: nat)
    requires Inv(outcome, s) && s.errs == [] && i < |outcome| && outcome[i].Some?
    ensures s.wg > 0
  {
    FailureOccurs(outcome, i);
    assert Occurs(s.errs, outcome[i].value) == 0;
    if s.wg == 0 {
      NothingOwed(s.handlers, outcome, outcome[i].value);
    }
  }

  lemma BlockedMeansFailure(outcome: seq<Option<Error>>, s: State, i: nat)
    requires Inv(outcome, s) && i < |s.handlers| && s.handlers[i].Blocked?
    ensures Occurs(Failures(outcome), s.handlers[i].err) >= 1
  {
    OwedAt(s.handlers, outcome, i, s.handlers[i].err);
    assert Occurs(s.errs, s.handlers[i].err) >= 0;
  }

  lemma CleanHandlersMove(outcome: seq<Option<Error>>, s: State) returns (step: Step)
    requires Inv(outcome, s) && s.closer == Unborn && s.wg > 0
    requires forall i :: 0 <= i < |outcome| ==> outcome[i].None?
    ensures Enabled(outcome, s, step) && step != SpawnCloser
  {
    var i := SumWitness(s.handlers, Present);
    NoFailures(outcome);
    match s.handlers[i] {
      case NotSpawned => step := Spawn;
      case Processing => step := Process(i);
      case Deferred => step := SignOff(i);
      case Blocked(e) =>
        BlockedMeansFailure(outcome, s, i);
        assert false;
    }
  }

  lemma {:induction false} NobodyCollects(outcome: seq<Option<Error>>, s: State, steps: seq<Step>)
    requires Inv(outcome, s) && Run(outcome, s, steps).Some? && SpawnCloser !in steps
    requires s.closer == Unborn && s.errs == []
    ensures Run(outcome, s, steps).value.closer == Unborn && Run(outcome, s, steps).value.errs == []
    decreases |steps|
  {
    if steps != [] {
      StepKeepsInv(outcome, s, steps[0]);
      NobodyCollects(outcome, Do(outcome, s, steps[0]), steps[1..]);
    }
  }

  lemma {:induction false} NoFailures(outcome: seq<Option<Error>>)
    requires forall i :: 0 <= i < |outcome| ==> outcome[i].None?
    ensures Failures(outcome) == []
  {
    if outcome != [] {
      NoFailures(outcome[1..]);
    }
  }

  lemma {:induction false} OwedAt(hs: seq<Handler>, outcome: seq<Option<Error>>, i: nat, e: Error)
    requires |hs| == |outcome| && i < |hs|
    ensures Owes(hs[i], outcome[i], e) <= Owed(hs, outcome, e)
  {
    if i > 0 {
      OwedAt(hs[1..], outcome[1..], i - 1, e);
    }
  }
}
