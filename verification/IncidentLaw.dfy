/**
 The incidents of one check over its whole life.  A life is the fold of Execute over the stream
 of result states; the laws say, in terms of the stream alone, when an incident is made, what
 is attached and what became of every earlier incident.
 */
module IncidentLaw {
  import opened Wrappers
  import opened Clock
  import opened Results
  import opened Checks
  import HandlerFanout

  /** One incident ever created and how often Resolve was called on it. */
  datatype Record = Record(fromState: ResultState, toState: ResultState, resolutions: nat)

  /** attached is the position in created of the incident the check carries. */
  datatype Life = Life(created: seq<Record>, attached: Option<nat>, last: Option<ResultState>) {
    predicate Wf() {
      attached.Some? ==> attached.value < |created|
    }

    function AttachedTo(): Option<ResultState>
      requires Wf()
    {
      if attached.Some? then Some(created[attached.value].toState) else None
    }
  }

  const Newborn := Life([], None, None)

  function ResolveOrDiscard(l: Life, r: ResultState, isNew: bool): (l': Life)
    requires l.Wf()
    ensures l'.Wf() && |l'.created| == |l.created|
  {
    if l.attached.Some? && (r == StateOk || isNew) then
      var i := l.attached.value;
      if l.created[i].resolutions == 0
      then l.(created := l.created[i := l.created[i].(resolutions := l.created[i].resolutions + 1)])
      else l.(attached := None)
    else l
  }

  /** What one Execute does to the incidents. */
  function Advance(suppressed: bool, l: Life, r: ResultState): (l': Life)
    requires l.Wf()
    ensures l'.Wf() && l'.last == Some(r)
  {
    var isNew := Justifies(suppressed, l.AttachedTo(), l.last, r);
    var t := ResolveOrDiscard(l, r, isNew);
    if isNew then
      var from := if l.last.Some? then l.last.value else StateUnknown;
      Life(t.created + [Record(from, r, 0)], Some(|t.created|), Some(r))
    else t.(last := Some(r))
  }

  /** The life after the first n results. */
  function After(suppressed: bool, rs: seq<ResultState>, n: nat): (l: Life)
    requires n <= |rs|
    ensures l.Wf()
  {
    if n == 0 then Newborn else Advance(suppressed, After(suppressed, rs, n - 1), rs[n - 1])
  }

  /** Whether step n of an unsuppressed check creates an incident. */
  predicate Creates(rs: seq<ResultState>, n: nat)
    requires n < |rs|
  {
    |After(false, rs, n + 1).created| > |After(false, rs, n).created|
  }

  // ---- the reference law, on the stream of results alone ----

  function Oks(rs: seq<ResultState>, lo: nat, hi: nat): nat
    requires lo <= hi <= |rs|
    decreases hi
  {
    if lo == hi then 0 else Oks(rs, lo, hi - 1) + (if rs[hi - 1] == StateOk then 1 else 0)
  }

  /** Step n is a new incident: the result is not OK, and either none came before, or two OK
      results came since the last one, or that one was about another state. */
  predicate IsNewIncident(rs: seq<ResultState>, n: nat)
    requires n < |rs|
    decreases n, 1
  {
    rs[n] != StateOk &&
    match LastNew(rs, n)
    case None => true
    case Some(k) => Oks(rs, k + 1, n) >= 2 || rs[k] != rs[n]
  }

  /** The last step before n that is a new incident. */
  function LastNew(rs: seq<ResultState>, n: nat): (k: Option<nat>)
    requires n <= |rs|
    ensures k.Some? ==> k.value < n && rs[k.value] != StateOk && IsNewIncident(rs, k.value)
    decreases n, 0
  {
    if n == 0 then None
    else if IsNewIncident(rs, n - 1) then Some(n - 1)
    else LastNew(rs, n - 1)
  }

  /** The number of new incidents among the first n steps. */
  function News(rs: seq<ResultState>, n: nat): nat
    requires n <= |rs|
  {
    if n == 0 then 0 else News(rs, n - 1) + (if IsNewIncident(rs, n - 1) then 1 else 0)
  }

  // ---- the laws ----

  /** Where a life stands after n results, by the OK results since its last incident. */
  predicate Stands(rs: seq<ResultState>, n: nat, l: Life)
    requires n <= |rs|
  {
    && |l.created| == News(rs, n)
    && l.last == (if n == 0 then None else Some(rs[n - 1]))
    && match LastNew(rs, n)
       case None => l.created == [] && l.attached == None && (n > 0 ==> rs[n - 1] == StateOk)
       case Some(k) =>
         var oks := Oks(rs, k + 1, n);
         && |l.created| > 0
         && l.created[|l.created| - 1].toState == rs[k]
         && l.created[|l.created| - 1].resolutions == (if oks == 0 then 0 else 1)
         && l.attached == (if oks < 2 then Some(|l.created| - 1) else None)
         && (rs[n - 1] == StateOk || rs[n - 1] == rs[k])
         && (oks == 0 ==> rs[n - 1] == rs[k])
         && (oks >= 2 ==> rs[n - 1] == StateOk)
  }

  lemma {:induction false} LifeStands(rs: seq<ResultState>, n: nat)
    requires n <= |rs|
    ensures Stands(rs, n, After(false, rs, n))
  {
    if n > 0 {
      LifeStands(rs, n - 1);
      StandsNext(rs, n - 1, After(false, rs, n - 1));
    }
  }

  lemma {:induction false} StandsNext(rs: seq<ResultState>, n: nat, l: Life)
    requires n < |rs| && l.Wf() && Stands(rs, n, l)
    ensures Justifies(false, l.AttachedTo(), l.last, rs[n]) <==> IsNewIncident(rs, n)
    ensures Stands(rs, n + 1, Advance(false, l, rs[n]))
  {
    if LastNew(rs, n).Some? && !IsNewIncident(rs, n) {
      var k := LastNew(rs, n).value;
      assert Oks(rs, k + 1, n + 1) == Oks(rs, k + 1, n) + (if rs[n] == StateOk then 1 else 0);
    } else if IsNewIncident(rs, n) {
      assert Oks(rs, n + 1, n + 1) == 0;
    }
  }

  /** The exact law of incident creation, over every run of a fresh, unsuppressed check. */
  lemma ExactIncidentLaw(rs: seq<ResultState>, n: nat)
    requires n < |rs|
    ensures Creates(rs, n) <==> IsNewIncident(rs, n)
  {
    LifeStands(rs, n);
    StandsNext(rs, n, After(false, rs, n));
  }

  /** A new incident leads from the state before, UNKNOWN at the very first, to the new one, and
      earlier incidents keep their states. */
  lemma NewIncidentLeads(rs: seq<ResultState>, n: nat)
    requires n < |rs|
    ensures var before, after := After(false, rs, n).created, After(false, rs, n + 1).created;
            && (forall i :: 0 <= i < |before| ==>
                  i < |after| && after[i].fromState == before[i].fromState && after[i].toState == before[i].toState)
            && (IsNewIncident(rs, n) ==>
                  after[|before|..] == [Record(if n == 0 then StateUnknown else rs[n - 1], rs[n], 0)])
            && (!IsNewIncident(rs, n) ==> |after| == |before|)
  {
    LifeStands(rs, n);
    StandsNext(rs, n, After(false, rs, n));
  }

  /** What is attached depends only on the OK results since the last incident: it is open after
      none, resolved after one and absent after two or more. */
  lemma AttachedByOkCount(rs: seq<ResultState>, n: nat, k: nat)
    requires n <= |rs| && LastNew(rs, n) == Some(k)
    ensures var l := After(false, rs, n);
            && (Oks(rs, k + 1, n) == 0 <==> l.attached.Some? && l.created[l.attached.value].resolutions == 0)
            && (Oks(rs, k + 1, n) == 1 <==> l.attached.Some? && l.created[l.attached.value].resolutions == 1)
            && (Oks(rs, k + 1, n) >= 2 <==> l.attached.None?)
            && (l.attached.Some? ==>
                  l.attached.value == |l.created| - 1 && l.created[l.attached.value].toState == rs[k])
  {
    LifeStands(rs, n);
  }

  /** README.md:78 promises an incident whenever a check becomes not OK or changes between
      states that are not OK. */
  predicate ReadmeRule(last: Option<ResultState>, r: ResultState) {
    r != StateOk && last != Some(r)
  }

  /** The code keeps that promise except exactly when a check that was just OK falls back to the
      state of the resolved incident it still carries. */
  lemma ReadmeRuleFailsExactly(rs: seq<ResultState>, n: nat)
    requires n < |rs|
    ensures var l := After(false, rs, n);
            (Creates(rs, n) != ReadmeRule(l.last, rs[n])) <==>
            (rs[n] != StateOk && l.last == Some(StateOk) && l.AttachedTo() == Some(rs[n]))
  {
    LifeStands(rs, n);
    StandsNext(rs, n, After(false, rs, n));
  }

  /** The shortest run that breaks the promise: CRIT, OK, CRIT makes one incident. */
  lemma CritOkCritMakesOneIncident()
    ensures var rs := [StateCrit, StateOk, StateCrit];
            |After(false, rs, 3).created| == 1 && ReadmeRule(After(false, rs, 2).last, rs[2])
  {
    var rs := [StateCrit, StateOk, StateCrit];
    assert After(false, rs, 1) == Advance(false, Newborn, StateCrit);
    assert After(false, rs, 2) == Advance(false, After(false, rs, 1), StateOk);
    assert After(false, rs, 3) == Advance(false, After(false, rs, 2), StateCrit);
  }

  // ---- what became of earlier incidents ----

  predicate OnlyFirstUnknownIsItsOwnSource(l: Life) {
    forall i :: 0 <= i < |l.created| && l.created[i].fromState == l.created[i].toState ==>
                  i == 0 && l.created[i].toState == StateUnknown
  }

  predicate Safe(l: Life)
    requires l.Wf()
  {
    && (forall i :: 0 <= i < |l.created| && l.attached != Some(i) ==> l.created[i].resolutions == 1)
    && (forall i :: 0 <= i < |l.created| ==> l.created[i].resolutions <= 1)
    && (l.last.Some? && l.last.value != StateOk ==> l.AttachedTo() == l.last)
    && (l.created != [] ==> l.last.Some?)
    && OnlyFirstUnknownIsItsOwnSource(l)
  }

  lemma AdvanceKeepsSafe(l: Life, r: ResultState)
    requires l.Wf() && Safe(l)
    ensures Safe(Advance(false, l, r))
  {
  }

  /** Over every run: an incident that is no longer attached has been resolved exactly once and
      the attached one at most once, so at most one is open; after a result that is not OK the
      attached incident is about that state; and an incident's two states differ, except when
      the very first result was UNKNOWN. */
  lemma {:induction false} IncidentHistoryIsSafe(rs: seq<ResultState>, n: nat)
    requires n <= |rs|
    ensures Safe(After(false, rs, n))
  {
    if n > 0 {
      IncidentHistoryIsSafe(rs, n - 1);
      AdvanceKeepsSafe(After(false, rs, n - 1), rs[n - 1]);
    }
  }

  /** At most one incident ever created is open. */
  lemma AtMostOneOpen(rs: seq<ResultState>, n: nat, i: nat, j: nat)
    requires n <= |rs|
    requires var l := After(false, rs, n);
             i < |l.created| && j < |l.created| && l.created[i].resolutions == 0 && l.created[j].resolutions == 0
    ensures i == j
  {
    IncidentHistoryIsSafe(rs, n);
  }

  /** A suppressed check never has an incident. */
  lemma {:induction false} SuppressedChecksHaveNone(rs: seq<ResultState>, n: nat)
    requires n <= |rs|
    ensures After(true, rs, n).created == [] && After(true, rs, n).attached == None
  {
    if n > 0 {
      SuppressedChecksHaveNone(rs, n - 1);
    }
  }

  // ---- lives that start anywhere, and suppression that comes and goes ----

  /** One Execute: the state of its result, and whether incidents are suppressed then. */
  datatype Input = Input(state: ResultState, suppressed: bool)

  /** The life after the first n inputs of a check that had the life l0. */
  function From(l0: Life, ins: seq<Input>, n: nat): (l: Life)
    requires l0.Wf() && n <= |ins|
    ensures l.Wf()
  {
    if n == 0 then l0 else Advance(ins[n - 1].suppressed, From(l0, ins, n - 1), ins[n - 1].state)
  }

  /** A fresh check under constant suppression is the special case. */
  lemma {:induction false} FreshIsSpecial(suppressed: bool, rs: seq<ResultState>, ins: seq<Input>, n: nat)
    requires n <= |rs| == |ins| && forall i :: 0 <= i < |rs| ==> ins[i] == Input(rs[i], suppressed)
    ensures From(Newborn, ins, n) == After(suppressed, rs, n)
  {
    if n > 0 {
      FreshIsSpecial(suppressed, rs, ins, n - 1);
    }
  }

  function OkInputs(ins: seq<Input>, lo: nat, hi: nat): nat
    requires lo <= hi <= |ins|
    decreases hi
  {
    if lo == hi then 0 else OkInputs(ins, lo, hi - 1) + (if ins[hi - 1].state == StateOk then 1 else 0)
  }

  /** Input n makes an incident, in terms of the inputs and the start alone: it is not suppressed
      and not OK, and of another state than the incident that still stands or, when none does, than
      the result before. */
  predicate MakesNew(l0: Life, ins: seq<Input>, n: nat)
    requires l0.Wf() && n < |ins|
    decreases n, 2
  {
    && !ins[n].suppressed
    && ins[n].state != StateOk
    && Some(ins[n].state) != (if Standing(l0, ins, n).Some? then Standing(l0, ins, n)
                              else if n == 0 then l0.last else Some(ins[n - 1].state))
  }

  function LastMade(l0: Life, ins: seq<Input>, n: nat): (k: Option<nat>)
    requires l0.Wf() && n <= |ins|
    ensures k.Some? ==> k.value < n
    decreases n, 0
  {
    if n == 0 then None else if MakesNew(l0, ins, n - 1) then Some(n - 1) else LastMade(l0, ins, n - 1)
  }

  /** What the attached incident is about: the last one made stands until the second OK after it;
      before any is made the one from the start does, until the second OK if it was open and until
      the first if it was resolved. */
  function Standing(l0: Life, ins: seq<Input>, n: nat): Option<ResultState>
    requires l0.Wf() && n <= |ins|
    decreases n, 1
  {
    match LastMade(l0, ins, n)
    case Some(k) => if OkInputs(ins, k + 1, n) < 2 then Some(ins[k].state) else None
    case None =>
      if l0.attached.None? then None
      else
        var r := l0.created[l0.attached.value];
        if OkInputs(ins, 0, n) < (if r.resolutions == 0 then 2 else 1) then Some(r.toState) else None
  }

  /** The attached incident is still open. */
  predicate StandsOpen(l0: Life, ins: seq<Input>, n: nat)
    requires l0.Wf() && n <= |ins|
  {
    match LastMade(l0, ins, n)
    case Some(k) => OkInputs(ins, k + 1, n) == 0
    case None =>
      l0.attached.Some? && l0.created[l0.attached.value].resolutions == 0 && OkInputs(ins, 0, n) == 0
  }

  predicate AsInputsSay(l0: Life, ins: seq<Input>, n: nat, l: Life)
    requires l0.Wf() && l.Wf() && n <= |ins|
  {
    && l.last == (if n == 0 then l0.last else Some(ins[n - 1].state))
    && l.AttachedTo() == Standing(l0, ins, n)
    && (StandsOpen(l0, ins, n) <==> l.attached.Some? && l.created[l.attached.value].resolutions == 0)
  }

  lemma InputsNext(l0: Life, ins: seq<Input>, n: nat, l: Life)
    requires l0.Wf() && l.Wf() && n < |ins| && AsInputsSay(l0, ins, n, l)
    ensures var l' := Advance(ins[n].suppressed, l, ins[n].state);
            && AsInputsSay(l0, ins, n + 1, l')
            && |l'.created| == |l.created| + (if MakesNew(l0, ins, n) then 1 else 0)
  {
    var from := if LastMade(l0, ins, n).Some? then LastMade(l0, ins, n).value + 1 else 0;
    assert OkInputs(ins, from, n + 1) == OkInputs(ins, from, n) + (if ins[n].state == StateOk then 1 else 0);
    assert OkInputs(ins, n + 1, n + 1) == 0;
    var l' := Advance(ins[n].suppressed, l, ins[n].state);
    assert Justifies(ins[n].suppressed, l.AttachedTo(), l.last, ins[n].state) <==> MakesNew(l0, ins, n);
    if MakesNew(l0, ins, n) {
      assert LastMade(l0, ins, n + 1) == Some(n);
      assert l'.AttachedTo() == Some(ins[n].state);
    } else {
      assert LastMade(l0, ins, n + 1) == LastMade(l0, ins, n);
      assert l'.AttachedTo() == if l'.attached.Some? then l.AttachedTo() else None;
    }
  }

  /** The exact law of incidents, for every life of every check: whatever it carries at the start,
      and whenever suppression is set and lifted. */
  lemma {:induction false} IncidentLawFromAnywhere(l0: Life, ins: seq<Input>, n: nat)
    requires l0.Wf() && n <= |ins|
    ensures var l := From(l0, ins, n);
            && l.AttachedTo() == Standing(l0, ins, n)
            && (StandsOpen(l0, ins, n) <==> l.attached.Some? && l.created[l.attached.value].resolutions == 0)
            && l.last == (if n == 0 then l0.last else Some(ins[n - 1].state))
            && (n < |ins| ==>
                  (|From(l0, ins, n + 1).created| > |l.created| <==> MakesNew(l0, ins, n)))
  {
    if n > 0 {
      IncidentLawFromAnywhere(l0, ins, n - 1);
      InputsNext(l0, ins, n - 1, From(l0, ins, n - 1));
    } else {
      assert OkInputs(ins, 0, 0) == 0;
    }
    if n < |ins| {
      InputsNext(l0, ins, n, From(l0, ins, n));
    }
  }

  /** WARN while suppressed, then CRIT when suppression is lifted, is an incident from WARN to CRIT;
      WARN again is none. */
  lemma LiftedSuppression(state: ResultState)
    requires state != StateOk
    ensures var ins := [Input(StateWarn, true), Input(state, false)];
            From(Newborn, ins, 2).created == if state == StateWarn then [] else [Record(StateWarn, state, 0)]
  {
    var ins := [Input(StateWarn, true), Input(state, false)];
    assert From(Newborn, ins, 1) == Advance(true, Newborn, StateWarn) == Life([], None, Some(StateWarn));
    assert From(Newborn, ins, 2) == Advance(false, From(Newborn, ins, 1), state);
  }

  /** Detached incidents are resolved exactly once, and none more often than once. */
  predicate ResolvedOnce(l: Life) {
    forall i :: 0 <= i < |l.created| ==>
      l.created[i].resolutions <= 1 && (l.attached != Some(i) ==> l.created[i].resolutions == 1)
  }

  lemma {:induction false} ResolvedOnceFromAnywhere(l0: Life, ins: seq<Input>, n: nat)
    requires l0.Wf() && n <= |ins| && ResolvedOnce(l0)
    ensures ResolvedOnce(From(l0, ins, n))
  {
    if n > 0 {
      ResolvedOnceFromAnywhere(l0, ins, n - 1);
      AdvanceResolvesOnce(ins[n - 1].suppressed, From(l0, ins, n - 1), ins[n - 1].state);
    }
  }

  lemma AdvanceResolvesOnce(suppressed: bool, l: Life, r: ResultState)
    requires l.Wf() && ResolvedOnce(l)
    ensures ResolvedOnce(Advance(suppressed, l, r))
  {
  }

  // ---- the objects follow the life ----

  ghost predicate Matches(i: Incident, r: Record)
    reads i
  {
    i.fromState == r.fromState && i.toState == r.toState && (i.resolved.None? <==> r.resolutions == 0)
  }

  /** Distinct objects, each as its record says. */
  ghost predicate AllMatch(made: seq<Incident>, rs: seq<Record>)
    reads made
  {
    && |made| == |rs|
    && (forall i, j :: 0 <= i < j < |made| ==> made[i] != made[j])
    && (forall i :: 0 <= i < |made| ==> Matches(made[i], rs[i]))
  }

  /** The incident objects a check made, in order, and the one it carries, are as the life says. */
  ghost predicate Mirrors(c: Check, made: seq<Incident>, l: Life)
    reads c, made
  {
    && l.Wf()
    && AllMatch(made, l.created)
    && c.incident == (if l.attached.Some? then made[l.attached.value] else null)
    && c.LastState() == l.last
  }

  /** The life of a check as it is found, of which only the attached incident is known. */
  ghost function LifeOf(c: Check): (l: Life)
    reads c, c.incident
    ensures l.Wf() && ResolvedOnce(l)
  {
    if c.incident == null then Life([], None, c.LastState())
    else
      var resolutions := if c.incident.resolved.None? then 0 else 1;
      Life([Record(c.incident.fromState, c.incident.toState, resolutions)], Some(0), c.LastState())
  }

  function Inputs(outcomes: seq<Outcome>, suppressed: seq<bool>): seq<Input>
    requires |suppressed| == |outcomes|
  {
    seq(|outcomes|, i requires 0 <= i < |outcomes| => Input(outcomes[i].result.state, suppressed[i]))
  }

  function States(outcomes: seq<Outcome>): seq<ResultState> {
    seq(|outcomes|, i requires 0 <= i < |outcomes| => outcomes[i].result.state)
  }

  /** What Execute does to the incidents made before, and which one it makes. */
  method ExecuteAndMatch(c: Check, outcome: Outcome, handling: HandlerFanout.Handling, time: Time,
                         ghost made: seq<Incident>, ghost life: Life)
    returns (created: Incident?)
    requires Mirrors(c, made, life) && HandlerFanout.Complete(handling)
    modifies c, c.Attached()`resolved
    ensures c.suppressIncidents == old(c.suppressIncidents) && c.LastState() == Some(outcome.result.state)
    ensures var isNew := Justifies(c.suppressIncidents, life.AttachedTo(), life.last, outcome.result.state);
            var t := ResolveOrDiscard(life, outcome.result.state, isNew);
            && AllMatch(made, t.created)
            && (created != null <==> isNew)
            && c.incident == (if isNew then created else if t.attached.Some? then made[t.attached.value] else null)
    ensures created != null ==>
              && fresh(created)
              && Matches(created, Record(if life.last.Some? then life.last.value else StateUnknown,
                                         outcome.result.state, 0))
  {
    var errors;
    created, errors := c.Execute(Some(outcome), handling, time, time, time);
  }

  /** One Execute takes the objects from one life to the next. */
  method ExecuteOnce(c: Check, outcome: Outcome, handling: HandlerFanout.Handling, time: Time,
                     made: seq<Incident>, ghost life: Life)
    returns (made': seq<Incident>)
    requires Mirrors(c, made, life) && HandlerFanout.Complete(handling)
    modifies c, c.Attached()`resolved
    ensures made <= made' && (forall i :: i in made' ==> i in made || fresh(i))
    ensures fresh(c.Attached() - old(c.Attached()))
    ensures c.suppressIncidents == old(c.suppressIncidents)
    ensures Mirrors(c, made', Advance(c.suppressIncidents, life, outcome.result.state))
  {
    var created := ExecuteAndMatch(c, outcome, handling, time, made, life);
    if created != null {
      made' := made + [created];
    } else {
      made' := made;
    }
  }

  /** The same with suppression set or lifted before. */
  method SuppressAndExecute(c: Check, suppressed: bool, outcome: Outcome, handling: HandlerFanout.Handling, time: Time,
                            made: seq<Incident>, ghost life: Life)
    returns (made': seq<Incident>)
    requires Mirrors(c, made, life) && HandlerFanout.Complete(handling)
    modifies c, c.Attached()`resolved
    ensures forall i :: i in made' ==> i in made || fresh(i)
    ensures fresh(c.Attached() - old(c.Attached()))
    ensures Mirrors(c, made', Advance(suppressed, life, outcome.result.state))
  {
    c.suppressIncidents := suppressed;
    made' := ExecuteOnce(c, outcome, handling, time, made, life);
  }

  lemma FromNext(l0: Life, outcomes: seq<Outcome>, suppressed: seq<bool>, n: nat)
    requires l0.Wf() && |suppressed| == |outcomes| && n < |outcomes|
    ensures From(l0, Inputs(outcomes, suppressed), n + 1) ==
            Advance(suppressed[n], From(l0, Inputs(outcomes, suppressed), n), outcomes[n].result.state)
  {
  }

  /** The incident a check carries, as the list of those it is known to have had. */
  method Carried(c: Check) returns (made: seq<Incident>)
    ensures Mirrors(c, made, LifeOf(c)) && forall i :: i in made <==> i in c.Attached()
  {
    if c.incident == null {
      made := [];
    } else {
      made := [c.incident];
    }
  }

  /** From one life on, any number of times. */
  method ExecuteOn(c: Check, outcomes: seq<Outcome>, suppressed: seq<bool>, handlings: seq<HandlerFanout.Handling>,
                   times: seq<Time>, before: seq<Incident>, ghost l0: Life)
    returns (made: seq<Incident>)
    requires |times| == |handlings| == |suppressed| == |outcomes|
    requires forall h :: h in handlings ==> HandlerFanout.Complete(h)
    requires Mirrors(c, before, l0)
    modifies c, c.Attached()`resolved
    ensures forall i :: i in made ==> i in before || fresh(i)
    ensures Mirrors(c, made, From(l0, Inputs(outcomes, suppressed), |outcomes|))
  {
    made := before;
    ghost var life, attached := l0, c.Attached();
    for n := 0 to |outcomes|
      invariant fresh(c.Attached() - attached) && forall i :: i in made ==> i in before || fresh(i)
      invariant life == From(l0, Inputs(outcomes, suppressed), n)
      invariant Mirrors(c, made, life)
    {
      made := SuppressAndExecute(c, suppressed[n], outcomes[n], handlings[n], times[n], made, life);
      FromNext(l0, outcomes, suppressed, n);
      life := Advance(suppressed[n], life, outcomes[n].result.state);
    }
  }

  /** Executing any check on any stream of outcomes, with suppression set and lifted in between,
      makes exactly the incidents of its life. */
  method ExecuteFrom(c: Check, outcomes: seq<Outcome>, suppressed: seq<bool>,
                     handlings: seq<HandlerFanout.Handling>, times: seq<Time>)
    returns (made: seq<Incident>)
    requires |times| == |handlings| == |suppressed| == |outcomes|
    requires forall h :: h in handlings ==> HandlerFanout.Complete(h)
    modifies c, c.Attached()`resolved
    ensures forall i :: i in made ==> i in old(c.Attached()) || fresh(i)
    ensures Mirrors(c, made, From(old(LifeOf(c)), Inputs(outcomes, suppressed), |outcomes|))
  {
    ghost var life := LifeOf(c);
    made := Carried(c);
    made := ExecuteOn(c, outcomes, suppressed, handlings, times, made, life);
  }

  /** Executing a fresh check on any stream of outcomes makes exactly the incidents of its life. */
  method ExecuteAll(c: Check, outcomes: seq<Outcome>, handlings: seq<HandlerFanout.Handling>, times: seq<Time>)
    returns (made: seq<Incident>)
    requires c.incident == null && c.lastResult == None
    requires |times| == |handlings| == |outcomes| && forall h :: h in handlings ==> HandlerFanout.Complete(h)
    modifies c
    ensures forall i :: i in made ==> fresh(i)
    ensures Mirrors(c, made, After(old(c.suppressIncidents), States(outcomes), |outcomes|))
  {
    var constant := c.suppressIncidents;
    var suppressed := seq(|outcomes|, _ => constant);
    FreshIsSpecial(constant, States(outcomes), Inputs(outcomes, suppressed), |outcomes|);
    made := ExecuteFrom(c, outcomes, suppressed, handlings, times);
  }
}
