/**
 The incoming half of bufqueue.Queue under interleaving.  Enqueue appends to a Go slice under
 the lock; the ticker and every Flush swap the slice out under the lock and hand it to the
 CheckEnqueuer after releasing it.  Slices are views of backing arrays, so an append may write
 to an array that an earlier batch still refers to, unless it never does.
 */
module PendingBuffer {
  import opened Wrappers
  import opened Counting

  /** A slice: a backing array and a length.  The capacity is the length of the array. */
  datatype Slice = Slice(arr: nat, len: nat)

  /** A batch that was swapped out, what it held then, and whether it was handed over. */
  datatype Batch = Batch(slice: Slice, taken: seq<CheckRef>, handed: bool)

  /** batches is in the order of the swaps; enqueued is the history of Enqueue calls, received that
      of the CheckEnqueuer: what the slices it was handed held then. */
  datatype State = State(
    arrays: seq<seq<CheckRef>>,
    pending: Slice,
    batches: seq<Batch>,
    enqueued: seq<CheckRef>,
    received: seq<seq<CheckRef>>)

  /** spare is what the runtime reserves beyond the new element when it must reallocate. */
  datatype Step = Append(chk: CheckRef, spare: nat) | Swap | HandOver(i: nat)

  const Nil: CheckRef := 0

  const Init := State([[]], Slice(0, 0), [], [], [])

  predicate InBounds(arrays: seq<seq<CheckRef>>, s: Slice) {
    s.arr < |arrays| && s.len <= |arrays[s.arr]|
  }

  function Contents(arrays: seq<seq<CheckRef>>, s: Slice): seq<CheckRef>
    requires InBounds(arrays, s)
  {
    arrays[s.arr][..s.len]
  }

  predicate Enabled(s: State, step: Step) {
    InBounds(s.arrays, s.pending) &&
    match step
    case Append(_, _) => true
    case Swap => true
    case HandOver(i) => i < |s.batches| && InBounds(s.arrays, s.batches[i].slice) && !s.batches[i].handed
  }

  function Do(s: State, step: Step): State
    requires Enabled(s, step)
  {
    match step
    case Append(chk, spare) =>
      var Slice(arr, len) := s.pending;
      if len < |s.arrays[arr]| then
        var cells: seq<CheckRef> := s.arrays[arr];
        var written: seq<CheckRef> := cells[len := chk];
        s.(arrays := s.arrays[arr := written],
           pending := Slice(arr, len + 1),
           enqueued := s.enqueued + [chk])
      else
        s.(arrays := s.arrays + [Contents(s.arrays, s.pending) + [chk] + seq(spare, _ => Nil)],
           pending := Slice(|s.arrays|, len + 1),
           enqueued := s.enqueued + [chk])
    case Swap =>
      if s.pending.len > 0 then
        s.(arrays := s.arrays + [seq(s.pending.len / 2, _ => Nil)],
           pending := Slice(|s.arrays|, 0),
           batches := s.batches + [Batch(s.pending, Contents(s.arrays, s.pending), false)])
      else s
    case HandOver(i) =>
      s.(batches := s.batches[i := s.batches[i].(handed := true)],
         received := s.received + [Contents(s.arrays, s.batches[i].slice)])
  }

  predicate CanRun(s: State, steps: seq<Step>)
    decreases |steps|
  {
    steps == [] || (Enabled(s, steps[0]) && CanRun(Do(s, steps[0]), steps[1..]))
  }

  function Run(s: State, steps: seq<Step>): State
    requires CanRun(s, steps)
    decreases |steps|
  {
    if steps == [] then s else Run(Do(s, steps[0]), steps[1..])
  }

  /** What the batches held when they were swapped out, in order. */
  function Taken(batches: seq<Batch>): seq<CheckRef> {
    if batches == [] then [] else Taken(batches[..|batches| - 1]) + batches[|batches| - 1].taken
  }

  predicate BatchIntact(s: State, b: Batch) {
    && InBounds(s.arrays, b.slice)
    && Contents(s.arrays, b.slice) == b.taken
    && b.slice.arr != s.pending.arr
    && b.taken != []
  }

  predicate Inv(s: State) {
    && InBounds(s.arrays, s.pending)
    && (forall i :: 0 <= i < |s.batches| ==> BatchIntact(s, s.batches[i]))
    && Taken(s.batches) + Contents(s.arrays, s.pending) == s.enqueued
  }

  lemma {:induction false} TakenUpdate(batches: seq<Batch>, i: nat)
    requires i < |batches|
    ensures Taken(batches[i := batches[i].(handed := true)]) == Taken(batches)
    decreases |batches|
  {
    var n := |batches| - 1;
    var after := batches[i := batches[i].(handed := true)];
    if i < n {
      assert after[..n] == batches[..n][i := batches[..n][i].(handed := true)];
      TakenUpdate(batches[..n], i);
    } else {
      assert after[..n] == batches[..n];
    }
  }

  lemma AppendKeepsInv(s: State, step: Step)
    requires Inv(s) && step.Append?
    ensures Inv(Do(s, step))
  {
    var t := Do(s, step);
    assert Contents(t.arrays, t.pending) == Contents(s.arrays, s.pending) + [step.chk];
    forall i | 0 <= i < |t.batches|
      ensures BatchIntact(t, t.batches[i])
    {
      assert BatchIntact(s, s.batches[i]);
    }
  }

  lemma SwapKeepsInv(s: State)
    requires Inv(s)
    ensures Inv(Do(s, Swap))
  {
    var t := Do(s, Swap);
    if s.pending.len > 0 {
      assert t.batches[..|s.batches|] == s.batches;
      assert Contents(t.arrays, t.pending) == [];
      forall i | 0 <= i < |t.batches|
        ensures BatchIntact(t, t.batches[i])
      {
        if i < |s.batches| {
          assert BatchIntact(s, s.batches[i]);
        }
      }
    }
  }

  lemma StepKeepsInv(s: State, step: Step)
    requires Inv(s) && Enabled(s, step)
    ensures Inv(Do(s, step))
  {
    match step {
      case Append(_, _) => AppendKeepsInv(s, step);
      case Swap => SwapKeepsInv(s);
      case HandOver(i) =>
        TakenUpdate(s.batches, i);
        forall j | 0 <= j < |s.batches|
          ensures BatchIntact(Do(s, step), Do(s, step).batches[j])
        {
          assert BatchIntact(s, s.batches[j]);
        }
    }
  }

  lemma {:induction false} RunKeepsInv(s: State, steps: seq<Step>)
    requires Inv(s) && CanRun(s, steps)
    ensures Inv(Run(s, steps))
    decreases |steps|
  {
    if steps != [] {
      StepKeepsInv(s, steps[0]);
      RunKeepsInv(Do(s, steps[0]), steps[1..]);
    }
  }

  /** In every interleaving the Enqueue calls so far are, in order, what the batches hold now
      followed by what is pending; each batch still holds what it was swapped out with. */
  lemma NothingLostOrOverwritten(steps: seq<Step>)
    requires CanRun(Init, steps)
    ensures var s := Run(Init, steps);
            && InBounds(s.arrays, s.pending)
            && Taken(s.batches) + Contents(s.arrays, s.pending) == s.enqueued
            && forall i :: 0 <= i < |s.batches| ==>
                 InBounds(s.arrays, s.batches[i].slice) && Contents(s.arrays, s.batches[i].slice) == s.batches[i].taken
  {
    RunKeepsInv(Init, steps);
    var s := Run(Init, steps);
    forall i | 0 <= i < |s.batches|
      ensures InBounds(s.arrays, s.batches[i].slice) && Contents(s.arrays, s.batches[i].slice) == s.batches[i].taken
    {
      assert BatchIntact(s, s.batches[i]);
    }
  }

  predicate NoRepeats(cs: seq<CheckRef>) {
    forall i, j :: 0 <= i < j < |cs| ==> cs[i] != cs[j]
  }

  /** A check of batch i is among the Enqueue calls, behind the batches before i. */
  lemma {:induction false} FoundAt(batches: seq<Batch>, i: nat, c: CheckRef) returns (p: nat)
    requires i < |batches| && c in batches[i].taken
    ensures p < |Taken(batches)| && Taken(batches)[p] == c
    ensures |Taken(batches[..i])| <= p < |Taken(batches[..i])| + |batches[i].taken|
    decreases |batches|
  {
    var n := |batches| - 1;
    if i == n {
      var k :| 0 <= k < |batches[i].taken| && batches[i].taken[k] == c;
      p := |Taken(batches[..n])| + k;
    } else {
      p := FoundAt(batches[..n], i, c);
      assert batches[..n][..i] == batches[..i];
    }
  }

  /** Checks enqueued at most once are in at most one batch. */
  lemma NoCheckInTwoBatches(steps: seq<Step>, i: nat, j: nat, c: CheckRef)
    requires CanRun(Init, steps) && NoRepeats(Run(Init, steps).enqueued)
    requires i < |Run(Init, steps).batches| && c in Run(Init, steps).batches[i].taken
    requires j < |Run(Init, steps).batches| && c in Run(Init, steps).batches[j].taken
    ensures i == j
  {
    NothingLostOrOverwritten(steps);
    var s := Run(Init, steps);
    var taken := Taken(s.batches);
    var p := FoundAt(s.batches, i, c);
    var q := FoundAt(s.batches, j, c);
    assert s.enqueued[..|taken|] == taken;
    assert s.enqueued[p] == c && s.enqueued[q] == c;
    assert p == q;
    if i < j {
      TakenGrows(s.batches, i, j);
    } else if j < i {
      TakenGrows(s.batches, j, i);
    }
  }

  lemma {:induction false} TakenGrows(batches: seq<Batch>, i: nat, j: nat)
    requires i < j <= |batches|
    ensures |Taken(batches[..i])| + |batches[i].taken| <= |Taken(batches[..j])|
    decreases j
  {
    assert batches[..j][..j - 1] == batches[..j - 1];
    if i < j - 1 {
      TakenGrows(batches, i, j - 1);
    }
  }

  // ---- what the CheckEnqueuer receives ----

  /** The weight of a batch that holds x and was handed over. */
  function HandedAs(x: seq<CheckRef>): Batch -> nat {
    (b: Batch) => Bit(b.handed && b.taken == x)
  }

  /** How often a batch in flight holds c. */
  function InFlight(c: CheckRef): Batch -> nat {
    (b: Batch) => if b.handed then 0 else Occurs(b.taken, c)
  }

  function Holding(c: CheckRef): seq<CheckRef> -> nat {
    (x: seq<CheckRef>) => Occurs(x, c)
  }

  /** How often c was enqueued, by what became of it. */
  predicate Settled(s: State, c: CheckRef)
    requires InBounds(s.arrays, s.pending)
  {
    Occurs(s.enqueued, c) ==
    Sum(s.received, Holding(c)) + Sum(s.batches, InFlight(c)) + Occurs(Contents(s.arrays, s.pending), c)
  }

  predicate ReceivedOnce(s: State, x: seq<CheckRef>) {
    Occurs(s.received, x) == Sum(s.batches, HandedAs(x))
  }

  lemma StepKeepsSettled(s: State, step: Step, c: CheckRef)
    requires Inv(s) && Enabled(s, step) && Settled(s, c)
    ensures InBounds(Do(s, step).arrays, Do(s, step).pending) && Settled(Do(s, step), c)
  {
    StepKeepsInv(s, step);
    var t := Do(s, step);
    match step {
      case Append(chk, _) =>
        assert Contents(t.arrays, t.pending) == Contents(s.arrays, s.pending) + [chk];
        OccursAppend(Contents(s.arrays, s.pending), chk, c);
        OccursAppend(s.enqueued, chk, c);
      case Swap =>
        if s.pending.len > 0 {
          assert Contents(t.arrays, t.pending) == [];
          SumAppend(s.batches, t.batches[|s.batches|], InFlight(c));
        }
      case HandOver(i) =>
        assert BatchIntact(s, s.batches[i]);
        SumUpdate(s.batches, i, t.batches[i], InFlight(c));
        SumAppend(s.received, s.batches[i].taken, Holding(c));
    }
  }

  lemma StepKeepsReceived(s: State, step: Step, x: seq<CheckRef>)
    requires Inv(s) && Enabled(s, step) && ReceivedOnce(s, x)
    ensures ReceivedOnce(Do(s, step), x)
  {
    var t := Do(s, step);
    if step.Swap? && s.pending.len > 0 {
      SumAppend(s.batches, t.batches[|s.batches|], HandedAs(x));
    } else if step.HandOver? {
      assert BatchIntact(s, s.batches[step.i]);
      SumUpdate(s.batches, step.i, t.batches[step.i], HandedAs(x));
      OccursAppend(s.received, s.batches[step.i].taken, x);
    }
  }

  lemma {:induction false} RunKeepsReceived(s: State, steps: seq<Step>, c: CheckRef, x: seq<CheckRef>)
    requires Inv(s) && CanRun(s, steps) && Settled(s, c) && ReceivedOnce(s, x)
    ensures Inv(Run(s, steps)) && Settled(Run(s, steps), c) && ReceivedOnce(Run(s, steps), x)
    decreases |steps|
  {
    if steps != [] {
      StepKeepsInv(s, steps[0]);
      StepKeepsSettled(s, steps[0], c);
      StepKeepsReceived(s, steps[0], x);
      RunKeepsReceived(Do(s, steps[0]), steps[1..], c, x);
    }
  }

  /** In every interleaving what the CheckEnqueuer received are the batches that were handed over,
      each once and as it was swapped out; and every check was received, or is in flight in a batch
      or is pending, as often as it was enqueued. */
  lemma ReceivedExactly(steps: seq<Step>, c: CheckRef, x: seq<CheckRef>)
    requires CanRun(Init, steps)
    ensures var s := Run(Init, steps);
            && Occurs(s.received, x) == Sum(s.batches, HandedAs(x))
            && InBounds(s.arrays, s.pending)
            && Occurs(s.enqueued, c) ==
               Sum(s.received, Holding(c)) + Sum(s.batches, InFlight(c)) + Occurs(Contents(s.arrays, s.pending), c)
  {
    RunKeepsReceived(Init, steps, c, x);
  }

  /** A batch in flight stays as it is, and can be handed over, until it is. */
  lemma {:induction false} InFlightStays(s: State, i: nat, steps: seq<Step>)
    requires Inv(s) && i < |s.batches| && !s.batches[i].handed
    requires CanRun(s, steps) && HandOver(i) !in steps
    ensures var t := Run(s, steps);
            && i < |t.batches| && t.batches[i] == s.batches[i] && Enabled(t, HandOver(i))
            && Do(t, HandOver(i)).received == t.received + [s.batches[i].taken]
    decreases |steps|
  {
    if steps == [] {
      assert BatchIntact(s, s.batches[i]);
    } else {
      StepKeepsInv(s, steps[0]);
      InFlightStays(Do(s, steps[0]), i, steps[1..]);
    }
  }

  /** What a Swap takes out of a pending buffer that is not empty can be handed over from then on,
      and is then received as it was. */
  lemma SwappedCanBeReceived(before: seq<Step>, steps: seq<Step>)
    requires CanRun(Init, before) && Run(Init, before).pending.len > 0
    requires Enabled(Run(Init, before), Swap) && CanRun(Do(Run(Init, before), Swap), steps)
    requires HandOver(|Run(Init, before).batches|) !in steps
    ensures var s := Run(Init, before);
            var t, i := Run(Do(s, Swap), steps), |s.batches|;
            && Enabled(t, HandOver(i)) && InBounds(s.arrays, s.pending)
            && Do(t, HandOver(i)).received == t.received + [Contents(s.arrays, s.pending)]
  {
    RunKeepsInv(Init, before);
    var s := Run(Init, before);
    StepKeepsInv(s, Swap);
    InFlightStays(Do(s, Swap), |s.batches|, steps);
  }

  /** A batch that was handed over is never handed over again. */
  lemma {:induction false} HandedStays(s: State, i: nat, steps: seq<Step>)
    requires i < |s.batches| && s.batches[i].handed && CanRun(s, steps)
    ensures i < |Run(s, steps).batches| && Run(s, steps).batches[i].handed && HandOver(i) !in steps
    decreases |steps|
  {
    if steps != [] {
      HandedStays(Do(s, steps[0]), i, steps[1..]);
      assert steps == [steps[0]] + steps[1..];
    }
  }

  /** Handing over what is in flight, batch by batch. */
  lemma {:induction false} HandOverAll(s: State, i: nat) returns (steps: seq<Step>)
    requires Inv(s) && i <= |s.batches| && forall j :: 0 <= j < i ==> s.batches[j].handed
    ensures CanRun(s, steps)
    ensures var t := Run(s, steps);
            && Inv(t) && |t.batches| == |s.batches| && t.enqueued == s.enqueued && t.pending == s.pending
            && forall j :: 0 <= j < |t.batches| ==> t.batches[j].handed
    decreases |s.batches| - i
  {
    if i == |s.batches| {
      steps := [];
    } else if s.batches[i].handed {
      steps := HandOverAll(s, i + 1);
    } else {
      assert BatchIntact(s, s.batches[i]);
      StepKeepsInv(s, HandOver(i));
      var rest := HandOverAll(Do(s, HandOver(i)), i + 1);
      steps := [HandOver(i)] + rest;
      assert steps[1..] == rest;
    }
  }

  lemma {:induction false} NothingInFlight(batches: seq<Batch>, c: CheckRef)
    requires forall j :: 0 <= j < |batches| ==> batches[j].handed
    ensures Sum(batches, InFlight(c)) == 0
  {
    if batches != [] {
      NothingInFlight(batches[1..], c);
    }
  }

  lemma {:induction false} CanRunOn(s: State, steps: seq<Step>, more: seq<Step>)
    requires CanRun(s, steps) && CanRun(Run(s, steps), more)
    ensures CanRun(s, steps + more) && Run(s, steps + more) == Run(Run(s, steps), more)
    decreases |steps|
  {
    if steps == [] {
      assert steps + more == more;
    } else {
      assert (steps + more)[1..] == steps[1..] + more;
      CanRunOn(Do(s, steps[0]), steps[1..], more);
    }
  }

  /** From every reachable state everything enqueued so far can come to be received. */
  lemma EverythingCanBeReceived(steps: seq<Step>) returns (more: seq<Step>)
    requires CanRun(Init, steps)
    ensures CanRun(Run(Init, steps), more)
    ensures var t := Run(Run(Init, steps), more);
            && t.enqueued == Run(Init, steps).enqueued
            && forall c :: Occurs(t.enqueued, c) == Sum(t.received, Holding(c))
  {
    RunKeepsInv(Init, steps);
    var s := Run(Init, steps);
    StepKeepsInv(s, Swap);
    var rest := HandOverAll(Do(s, Swap), 0);
    more := [Swap] + rest;
    assert more[1..] == rest;
    CanRunOn(Init, steps, more);
    var t := Run(s, more);
    forall c
      ensures Occurs(t.enqueued, c) == Sum(t.received, Holding(c))
    {
      RunKeepsReceived(Init, steps + more, c, []);
      NothingInFlight(t.batches, c);
    }
  }
}
