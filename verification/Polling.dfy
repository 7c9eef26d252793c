/** The loop closed: queue, schedule, SNMP command, Execute and back to the queue. */
module Polling {
  import opened Wrappers
  import opened Clock
  import opened Results
  import opened Checks
  import opened Float64
  import opened MemQueue
  import opened Counters
  import opened SnmpCommand
  import Decimal
  import HandlerFanout

  // ---- counters from one run to the next ----

  lemma {:induction false} FirstByNameAppend(a: seq<ResultMetric>, b: seq<ResultMetric>, name: string)
    ensures FirstByName(a + b, name) ==
            if FirstByName(a, name).Some? then FirstByName(a, name) else FirstByName(b, name)
  {
    if a == [] {
      assert a + b == b;
    } else {
      assert (a + b)[1..] == a[1..] + b;
      FirstByNameAppend(a[1..], b, name);
    }
  }

  /** Object i reports a metric under name. */
  predicate Reports(env: Env, objects: seq<Object>, i: nat, name: string)
    requires i < |objects|
  {
    Find(env, objects[i]).Found? && objects[i].kind != Null && Find(env, objects[i]).m.name == name
  }

  /** Nothing is found under a name before an object reports under it. */
  lemma {:induction false} NoMetricYet(env: Env, objects: seq<Object>, n: nat, name: string)
    requires n <= |objects| && WellTyped(objects)
    requires forall j :: 0 <= j < n ==> !Reports(env, objects, j, name)
    ensures FirstByName(MetricsOf(env, objects[..n]), name) == None
    decreases n
  {
    if n > 0 {
      NoMetricYet(env, objects, n - 1, name);
      OneMoreMetric(env, objects, n - 1, name);
    }
  }

  /** The metric found by name is that of the first object that reports under it. */
  lemma {:induction false} MetricByName(env: Env, objects: seq<Object>, n: nat, i: nat, name: string)
    requires i < n <= |objects| && WellTyped(objects)
    requires Reports(env, objects, i, name) && forall j :: 0 <= j < i ==> !Reports(env, objects, j, name)
    ensures FirstByName(MetricsOf(env, objects[..n]), name) ==
            Some(MetricOf(env, Find(env, objects[i]).m, objects[i]))
    decreases n
  {
    if i == n - 1 {
      NoMetricYet(env, objects, i, name);
    } else {
      MetricByName(env, objects, n - 1, i, name);
    }
    OneMoreMetric(env, objects, n - 1, name);
  }

  lemma OneMoreMetric(env: Env, objects: seq<Object>, n: nat, name: string)
    requires n < |objects| && WellTyped(objects)
    ensures var before := FirstByName(MetricsOf(env, objects[..n]), name);
            FirstByName(MetricsOf(env, objects[..n + 1]), name) ==
            if before.Some? then before
            else if Reports(env, objects, n, name) then Some(MetricOf(env, Find(env, objects[n]).m, objects[n]))
            else None
  {
    MetricsNext(env, objects, n);
    var l := Find(env, objects[n]);
    if l.Found? && objects[n].kind != Null {
      FirstByNameAppend(MetricsOf(env, objects[..n]), [MetricOf(env, l.m, objects[n])], name);
    } else {
      assert MetricsOf(env, objects[..n]) + [] == MetricsOf(env, objects[..n]);
    }
  }

  /** What a run reports of a counter is what the next run compares with: the rate is that of the
      two raw readings, although the first was overwritten in place after it was printed.  It
      takes that no earlier object of the first run reports under the same name. */
  lemma ConsecutiveRunsCompareRawCounters(
    env: Env, objects: seq<Object>, i: nat, m: OidMonitor, env': Env, o': Object)
    requires i < |objects| && WellTyped(objects) && InRange(o'.value)
    requires Find(env, objects[i]) == Found(m) && objects[i].IsCounter() && o'.IsCounter()
    requires forall j :: 0 <= j < i ==> !Reports(env, objects, j, m.name)
    requires env'.lastMetrics == Some(MetricsOf(env, objects))
    requires env'.lastCheck.Some? && Elapsed(env') != 0
    ensures OpinionOf(env', m, o') ==
            RateOpinion(m, BigIntOf(objects[i].value), BigIntOf(o'.value), Elapsed(env'))
  {
    MetricByName(env, objects, |objects|, i, m.name);
    assert objects[..|objects|] == objects;
    Decimal.ParseText(BigIntOf(objects[i].value));
  }

  // ---- the divisor of a rate ----

  /** A check taken out when due after intervalSeconds has at least that many whole seconds
      between its last run and any later instant, whatever the fractions of a second. */
  lemma RateWellDefined(last: Time, intervalSeconds: int, now: Time)
    requires last + intervalSeconds * SECOND <= now
    ensures Unix(now) - Unix(last) >= intervalSeconds
  {
    UnixFloors(last);
    UnixFloors(now);
  }

  /** A run at now of a check that last ran at last has a positive divisor if the check was due. */
  predicate PositiveDivisor(last: Time, intervalSeconds: int, now: Time) {
    last + intervalSeconds * SECOND <= now ==> Unix(now) - Unix(last) > 0
  }

  /** Every due run has a positive divisor if and only if the interval is at least a second. */
  lemma RateWellDefinedIff(intervalSeconds: int)
    ensures (forall last, now :: PositiveDivisor(last, intervalSeconds, now)) <==> intervalSeconds >= 1
  {
    if intervalSeconds >= 1 {
      forall last, now
        ensures PositiveDivisor(last, intervalSeconds, now)
      {
        if last + intervalSeconds * SECOND <= now {
          RateWellDefined(last, intervalSeconds, now);
        }
      }
    } else {
      var t: Time := intervalSeconds;
      assert !PositiveDivisor(t, intervalSeconds, t);
    }
  }

  // ---- one turn of the loop ----

  function EnvOf(chk: Check, monitors: seq<OidMonitor>, now: Time,
                 readFloat: string -> real, printFloat: real -> string): Env
    reads chk
  {
    Env(monitors,
        if chk.lastResult.None? then None else Some(chk.lastResult.value.metrics),
        chk.lastCheck, now, readFloat, printFloat)
  }

  predicate Named(response: Response) {
    response.Objects? ==>
      WellTyped(response.objects) && forall o :: o in response.objects ==> o.oid != ""
  }

  function ResultOf(out: SnmpCommand.Outcome, now: Time): Checks.Outcome
    requires out.Done? || out.Failed?
  {
    if out.Done? then Outcome(Result(out.state, out.reason, out.metrics, now), None)
    else Outcome(MakeUnknownResult(out.reason, now), out.err)
  }

  /** The result is what the SNMP command makes of the response. */
  predicate ReportsOn(env: Env, response: Response, result: Result)
    requires Named(response)
  {
    match response
    case GetError(_, timeout) =>
      && result.state == StateUnknown && result.metrics == []
      && result.reasonCode == if timeout then "CONNECTION_ERROR" else "CMD_FAILURE"
    case Objects(objects) =>
      if FirstStop(env, objects, |objects|).Some?
      then result.state == StateUnknown && result.metrics == [] && result.reasonCode == "CMD_FAILURE"
      else Completes(env, objects, Done(result.state, result.reasonCode, result.metrics))
  }

  /** The error that comes with it: a request that failed, unless it timed out, or an object that
      nobody monitors. */
  function ErrorOn(env: Env, response: Response): Option<Error>
    requires Named(response)
  {
    match response
    case GetError(message, timeout) => if timeout then None else Some(message)
    case Objects(objects) =>
      var stop := FirstStop(env, objects, |objects|);
      if stop.Some?
      then Some("snmp.Command.Run(): oid " + objects[stop.value].oid + " could not be found in monitors")
      else None
  }

  /** The SNMP command of a check that was due never divides by zero. */
  method RunDue(chk: Check, monitors: seq<OidMonitor>, response: Response, tDequeue: Time, tRun: Time,
                readFloat: string -> real, printFloat: real -> string)
    returns (out: SnmpCommand.Outcome)
    requires chk.IsDue(tDequeue) && tDequeue <= tRun && chk.schedule.intervalSeconds >= 1 && Named(response)
    ensures out.Done? || out.Failed?
    ensures ReportsOn(EnvOf(chk, monitors, tRun, readFloat, printFloat), response, ResultOf(out, tRun).result)
    ensures ResultOf(out, tRun).err == ErrorOn(EnvOf(chk, monitors, tRun, readFloat, printFloat), response)
  {
    var env := EnvOf(chk, monitors, tRun, readFloat, printFloat);
    if chk.lastCheck.Some? {
      RateWellDefined(chk.lastCheck.value, chk.schedule.intervalSeconds, tRun);
    }
    out := Run(env, response);
  }

  /** The SNMP command of a due check and its Execute. */
  method ExecuteDue(chk: Check, monitors: seq<OidMonitor>, response: Response, handling: HandlerFanout.Handling,
                    tDequeue: Time, tRun: Time, tDone: Time, readFloat: string -> real, printFloat: real -> string)
    returns (errors: seq<Error>)
    requires chk.IsDue(tDequeue) && tDequeue <= tRun && chk.schedule.intervalSeconds >= 1 && Named(response)
    requires HandlerFanout.Complete(handling)
    modifies chk, chk.Attached()`resolved
    ensures chk.lastCheck == Some(tDone) && chk.lastResult.Some? && chk.schedule == old(chk.schedule)
    ensures chk.lastResult.value.time == tRun
    ensures fresh(chk.Attached() - old(chk.Attached()))
    ensures ReportsOn(old(EnvOf(chk, monitors, tRun, readFloat, printFloat)), response, chk.lastResult.value)
    ensures var err := ErrorOn(old(EnvOf(chk, monitors, tRun, readFloat, printFloat)), response);
            errors == (if err.Some? then [err.value] else []) + HandlerFanout.Collected(handling)
  {
    var out := RunDue(chk, monitors, response, tDequeue, tRun, readFloat, printFloat);
    var created;
    created, errors := chk.Execute(Some(ResultOf(out, tRun)), handling, tDone, tDone, tDone);
  }

  // ---- many polls of one check ----

  /** One poll: what the agent answers, how its handlers run, and the clock at the Dequeue, at
      the start of the command and at the end of Execute. */
  datatype Poll = Poll(
    response: Response, handling: HandlerFanout.Handling, tDequeue: Time, tRun: Time, tDone: Time)

  /** Each poll takes the check out when it is due again after the one before. */
  ghost predicate DueInTurn(polls: seq<Poll>, intervalSeconds: int) {
    forall k :: 0 <= k < |polls| ==>
      && Named(polls[k].response) && HandlerFanout.Complete(polls[k].handling)
      && polls[k].tDequeue <= polls[k].tRun <= polls[k].tDone
      && (k > 0 ==> polls[k - 1].tDone + intervalSeconds * SECOND <= polls[k].tDequeue)
  }

  /** What poll k sees of the check: what the poll before left, or first at the start. */
  function EnvAt(first: Env, polls: seq<Poll>, results: seq<Result>, k: nat): Env
    requires k < |polls| && k <= |results|
  {
    if k == 0 then first
    else first.(lastMetrics := Some(results[k - 1].metrics),
                lastCheck := Some(polls[k - 1].tDone),
                now := polls[k].tRun)
  }

  /** The result of poll k is what the SNMP command makes of its response and the result before. */
  ghost predicate PollReports(first: Env, polls: seq<Poll>, results: seq<Result>, k: nat)
    requires k < |results| <= |polls| && Named(polls[k].response)
  {
    ReportsOn(EnvAt(first, polls, results, k), polls[k].response, results[k])
  }

  ghost predicate Polled(first: Env, polls: seq<Poll>, results: seq<Result>)
    requires |results| <= |polls| && forall k :: 0 <= k < |polls| ==> Named(polls[k].response)
  {
    forall k :: 0 <= k < |results| ==> PollReports(first, polls, results, k)
  }

  /** Executing one check again and again, each time when it is due. */
  method PollAll(chk: Check, monitors: seq<OidMonitor>, polls: seq<Poll>,
                 readFloat: string -> real, printFloat: real -> string)
    returns (results: seq<Result>)
    requires chk.schedule.intervalSeconds >= 1 && DueInTurn(polls, chk.schedule.intervalSeconds)
    requires polls != [] && chk.IsDue(polls[0].tDequeue)
    modifies chk, chk.Attached()`resolved
    ensures |results| == |polls|
    ensures Polled(old(EnvOf(chk, monitors, polls[0].tRun, readFloat, printFloat)), polls, results)
    ensures chk.lastResult == Some(results[|polls| - 1]) && chk.lastCheck == Some(polls[|polls| - 1].tDone)
  {
    ghost var first := EnvOf(chk, monitors, polls[0].tRun, readFloat, printFloat);
    ghost var attached := chk.Attached();
    results := [];
    for k := 0 to |polls|
      invariant |results| == k && Polled(first, polls, results)
      invariant chk.schedule == old(chk.schedule)
      invariant fresh(chk.Attached() - attached)
      invariant k == 0 ==> EnvOf(chk, monitors, polls[0].tRun, readFloat, printFloat) == first
      invariant k == 0 ==> chk.IsDue(polls[0].tDequeue)
      invariant k > 0 ==> chk.lastResult == Some(results[k - 1]) && chk.lastCheck == Some(polls[k - 1].tDone)
    {
      ghost var env := EnvOf(chk, monitors, polls[k].tRun, readFloat, printFloat);
      assert env == EnvAt(first, polls, results, k);
      var p := polls[k];
      var errors := ExecuteDue(chk, monitors, p.response, p.handling, p.tDequeue, p.tRun, p.tDone, readFloat, printFloat);
      PolledNext(first, polls, results, chk.lastResult.value);
      results := results + [chk.lastResult.value];
    }
  }

  lemma PolledNext(first: Env, polls: seq<Poll>, results: seq<Result>, next: Result)
    requires |results| < |polls| && forall k :: 0 <= k < |polls| ==> Named(polls[k].response)
    requires Polled(first, polls, results)
    requires ReportsOn(EnvAt(first, polls, results, |results|), polls[|results|].response, next)
    ensures Polled(first, polls, results + [next])
  {
    forall k | 0 <= k < |results| + 1
      ensures PollReports(first, polls, results + [next], k)
    {
      if k < |results| {
        assert PollReports(first, polls, results, k);
        PollStands(first, polls, results, next, k);
      }
    }
  }

  lemma PollStands(first: Env, polls: seq<Poll>, results: seq<Result>, next: Result, k: nat)
    requires k < |results| < |polls| && Named(polls[k].response)
    requires PollReports(first, polls, results, k)
    ensures PollReports(first, polls, results + [next], k)
  {
    assert EnvAt(first, polls, results + [next], k) == EnvAt(first, polls, results, k);
  }

  /** A completed run, and the next one at least an interval later: its opinion of a counter is
      that of the rate from the raw value received then to the raw value received now. */
  lemma TwoRuns(env: Env, objects: seq<Object>, result: Result, i: nat, m: OidMonitor,
                env': Env, o': Object, intervalSeconds: int)
    requires Named(Objects(objects)) && InRange(o'.value) && i < |objects|
    requires ReportsOn(env, Objects(objects), result) && FirstStop(env, objects, |objects|).None?
    requires Find(env, objects[i]) == Found(m) && objects[i].IsCounter() && o'.IsCounter()
    requires forall l :: 0 <= l < i ==> !Reports(env, objects, l, m.name)
    requires intervalSeconds >= 1 && env'.lastMetrics == Some(result.metrics) && env'.lastCheck.Some?
    requires env'.lastCheck.value + intervalSeconds * SECOND <= env'.now
    ensures Elapsed(env') >= intervalSeconds
    ensures OpinionOf(env', m, o') ==
            RateOpinion(m, BigIntOf(objects[i].value), BigIntOf(o'.value), Elapsed(env'))
  {
    RateWellDefined(env'.lastCheck.value, intervalSeconds, env'.now);
    ConsecutiveRunsCompareRawCounters(env, objects, i, m, env', o');
  }

  /** Object i of a completed response is the first that reports under m's name, a counter. */
  predicate FirstCounter(env: Env, response: Response, i: nat, m: OidMonitor)
    requires Named(response)
  {
    && response.Objects? && i < |response.objects|
    && FirstStop(env, response.objects, |response.objects|).None?
    && response.objects[i].IsCounter() && Find(env, response.objects[i]) == Found(m)
    && forall l :: 0 <= l < i ==> !Reports(env, response.objects, l, m.name)
  }

  /** In every run of polls, whatever a poll makes of a counter is the rate between the two raw
      values that the poll before and this one received, over at least the interval: the value
      survives the update in place, the trip through text and the check's fields. */
  lemma EveryRateIsOfRawCounters(first: Env, polls: seq<Poll>, results: seq<Result>, intervalSeconds: int,
                                 k: nat, i: nat, o': Object, m: OidMonitor)
    requires intervalSeconds >= 1 && DueInTurn(polls, intervalSeconds)
    requires |results| == |polls| && Polled(first, polls, results) && k + 1 < |polls|
    requires FirstCounter(EnvAt(first, polls, results, k), polls[k].response, i, m)
    requires o'.IsCounter() && InRange(o'.value)
    ensures var env' := EnvAt(first, polls, results, k + 1);
            && Elapsed(env') == Unix(polls[k + 1].tRun) - Unix(polls[k].tDone) >= intervalSeconds
            && OpinionOf(env', m, o') ==
               RateOpinion(m, BigIntOf(polls[k].response.objects[i].value), BigIntOf(o'.value), Elapsed(env'))
  {
    assert PollReports(first, polls, results, k);
    TwoRuns(EnvAt(first, polls, results, k), polls[k].response.objects, results[k], i, m,
            EnvAt(first, polls, results, k + 1), o', intervalSeconds);
  }

  // ---- two polls of one counter, from end to end ----

  /** What a run over one counter reports. */
  lemma OneCounterReport(env: Env, m: OidMonitor, o: Object, n: int, last: int, result: Result)
    requires env.monitors == [m] && m.oid != "" && m.oid[0] != '.' && o.oid == "." + m.oid
    requires (o.kind == Counter32 || o.kind == Counter64) && o.value == Integer(Uint64, n) && Fits(Uint64, n)
    requires env.lastCheck.Some? ==> Elapsed(env) > 0
    requires ReportsOn(env, Objects([o]), result)
    ensures result.metrics == [ResultMetric(m.name, Decimal.Text(n), Counter)]
    ensures env.lastMetrics == Some([ResultMetric(m.name, Decimal.Text(last), Counter)]) && env.lastCheck.Some? ==>
              Says(result.state, result.reasonCode) == RateOpinion(m, last, n, Elapsed(env))
  {
    DottedOid(env, m, o);
    OneObject(env, o);
    OneCounterOpinion(env, m, o, n, last);
  }

  /** The check ran before and then reported last, raw, under m's name. */
  ghost predicate LastRaw(chk: Check, m: OidMonitor, last: int)
    reads chk
  {
    && chk.lastCheck.Some? && chk.lastResult.Some?
    && chk.lastResult.value.metrics == [ResultMetric(m.name, Decimal.Text(last), Counter)]
  }

  method OneCounterPoll(chk: Check, m: OidMonitor, kind: Kind, n: int, ghost last: int, h: HandlerFanout.Handling,
                        tDequeue: Time, tRun: Time, tDone: Time, readFloat: string -> real, printFloat: real -> string)
    requires m.oid != "" && m.oid[0] != '.' && (kind == Counter32 || kind == Counter64)
    requires Fits(Uint64, n) && HandlerFanout.Complete(h)
    requires chk.schedule.intervalSeconds >= 1 && chk.IsDue(tDequeue) && tDequeue <= tRun
    modifies chk, chk.Attached()`resolved
    ensures chk.schedule == old(chk.schedule) && fresh(chk.Attached() - old(chk.Attached()))
    ensures chk.lastCheck == Some(tDone) && chk.lastResult.Some? && chk.lastResult.value.time == tRun
    ensures chk.lastResult.value.metrics == [ResultMetric(m.name, Decimal.Text(n), Counter)]
    ensures old(LastRaw(chk, m, last)) ==>
              var seconds := Unix(tRun) - Unix(old(chk.lastCheck.value));
              && seconds >= chk.schedule.intervalSeconds
              && Says(chk.lastResult.value.state, chk.lastResult.value.reasonCode) == RateOpinion(m, last, n, seconds)
  {
    var o := Object(kind, Integer(Uint64, n), "." + m.oid);
    ghost var env := EnvOf(chk, [m], tRun, readFloat, printFloat);
    if chk.lastCheck.Some? {
      RateWellDefined(chk.lastCheck.value, chk.schedule.intervalSeconds, tRun);
    }
    var errors := ExecuteDue(chk, [m], Objects([o]), h, tDequeue, tRun, tDone, readFloat, printFloat);
    OneCounterReport(env, m, o, n, last, chk.lastResult.value);
    if old(LastRaw(chk, m, last)) {
      assert env.lastMetrics == Some([ResultMetric(m.name, Decimal.Text(last), Counter)]);
      assert Elapsed(env) == Unix(tRun) - Unix(old(chk.lastCheck.value));
    }
  }

  /** A check with one monitor polls a counter twice, each time when it is due: its last result is
      the verdict on the rate between the two raw values over the time from the end of the first
      poll to the second, with the second raw value as its metric. */
  method TwoCounterPolls(chk: Check, m: OidMonitor, kind: Kind, before: int, after: int,
                         h: HandlerFanout.Handling, h': HandlerFanout.Handling,
                         tDequeue: Time, tRun: Time, tDone: Time, tDequeue': Time, tRun': Time, tDone': Time,
                         readFloat: string -> real, printFloat: real -> string)
    requires m.oid != "" && m.oid[0] != '.' && (kind == Counter32 || kind == Counter64)
    requires Fits(Uint64, before) && Fits(Uint64, after)
    requires HandlerFanout.Complete(h) && HandlerFanout.Complete(h')
    requires chk.schedule.intervalSeconds >= 1 && chk.IsDue(tDequeue) && tDequeue <= tRun <= tDone
    requires tDone + chk.schedule.intervalSeconds * SECOND <= tDequeue' <= tRun' <= tDone'
    modifies chk, chk.Attached()`resolved
    ensures chk.lastCheck == Some(tDone') && chk.lastResult.Some?
    ensures var r := chk.lastResult.value;
            && r.metrics == [ResultMetric(m.name, Decimal.Text(after), Counter)] && r.time == tRun'
            && Unix(tRun') - Unix(tDone) >= chk.schedule.intervalSeconds
            && Says(r.state, r.reasonCode) == RateOpinion(m, before, after, Unix(tRun') - Unix(tDone))
  {
    OneCounterPoll(chk, m, kind, before, 0, h, tDequeue, tRun, tDone, readFloat, printFloat);
    OneCounterPoll(chk, m, kind, after, before, h', tDequeue', tRun', tDone', readFloat, printFloat);
  }

  /** One turn of a server that runs one check at a time, when head is due at the head of its
      queue: it is executed, without a panic, and put back to be due one interval after it ended. */
  method Turn(q: Queue, head: Check, monitors: seq<OidMonitor>, response: Response, handling: HandlerFanout.Handling,
              tDequeue: Time, tRun: Time, tDone: Time, tEnqueue: Time,
              readFloat: string -> real, printFloat: real -> string)
    requires q.Valid() && q.Near() && q.entries != [] && head == q.entries[0].chk && head.IsDue(tDequeue)
    requires head.schedule.intervalSeconds >= 1 && NearEpoch(Unix(tDone + head.schedule.intervalSeconds * SECOND))
    requires tDequeue <= tRun <= tDone <= tEnqueue && Named(response) && HandlerFanout.Complete(handling)
    modifies q, head, head.Attached()`resolved
    ensures q.Valid() && q.Near()
    ensures head.lastCheck == Some(tDone) && head.lastResult.Some? && !head.executed
    ensures ReportsOn(old(EnvOf(head, monitors, tRun, readFloat, printFloat)), response, head.lastResult.value)
    ensures q.entries == Insert(old(q.entries)[1..],
                                Entry(head, tEnqueue, tDone + head.schedule.intervalSeconds * SECOND))
  {
    ghost var rest := q.entries[1..];
    TakeHead(q, head, tDequeue);
    var errors := ExecuteDue(head, monitors, response, handling, tDequeue, tRun, tDone, readFloat, printFloat);
    Requeue(q, head, tEnqueue, tDone, rest);
  }

  /** A check that ended at tDone goes back to be due one interval later. */
  method Requeue(q: Queue, chk: Check, tEnqueue: Time, ghost tDone: Time, ghost rest: seq<Entry>)
    requires q.Valid() && q.Near() && q.entries == rest && chk.lastCheck == Some(tDone)
    requires NearEpoch(Unix(tDone + chk.schedule.intervalSeconds * SECOND))
    modifies q, chk`executed
    ensures q.Valid() && q.Near() && !chk.executed
    ensures q.entries == Insert(rest, Entry(chk, tEnqueue, tDone + chk.schedule.intervalSeconds * SECOND))
  {
    EnqueueNear(q, chk, tEnqueue);
  }

  method TakeHead(q: Queue, head: Check, now: Time)
    requires q.Valid() && q.Near() && q.entries != [] && head == q.entries[0].chk && head.IsDue(now)
    modifies q
    ensures q.Valid() && q.Near() && q.entries == old(q.entries)[1..]
  {
    var chk := q.Dequeue(now);
  }
}
