/** The SNMP command (check/command/snmp/snmp.go): objects against thresholds. */
module SnmpCommand {
  import opened Wrappers
  import opened Clock
  import opened Results
  import opened Counters
  import Decimal

  /** A reason code of "" switches a threshold or status list off. */
  datatype OidMonitor = OidMonitor(
    oid: string,
    name: string,
    postProcessValue: real,
    warnMinReason: string, warnMin: real,
    critMinReason: string, critMin: real,
    warnMaxReason: string, warnMax: real,
    critMaxReason: string, critMax: real,
    warnStatusReason: string, warnStatus: seq<real>,
    critStatusReason: string, critStatus: seq<real>)

  datatype Kind = Null | Counter32 | Counter64 | OtherKind

  datatype Object = Object(kind: Kind, value: Value, oid: string) {
    predicate IsCounter() {
      kind == Counter32 || kind == Counter64
    }
  }

  // ---- one value against one monitor ----

  /** A rule: does it apply, and what does it say. */
  datatype Rule = Rule(applies: bool, state: ResultState, reason: string)

  /** The rules of a monitor in the order in which they are tried. */
  function Rules(m: OidMonitor, value: real): seq<Rule> {
    [ Rule(m.critStatusReason != "" && value in m.critStatus, StateCrit, m.critStatusReason),
      Rule(m.warnStatusReason != "" && value in m.warnStatus, StateWarn, m.warnStatusReason),
      Rule(m.critMinReason != "" && value < m.critMin, StateCrit, m.critMinReason),
      Rule(m.warnMinReason != "" && value < m.warnMin, StateWarn, m.warnMinReason),
      Rule(m.critMaxReason != "" && value > m.critMax, StateCrit, m.critMaxReason),
      Rule(m.warnMaxReason != "" && value > m.warnMax, StateWarn, m.warnMaxReason) ]
  }

  function FirstApplying(rules: seq<Rule>): (ResultState, string) {
    if rules == [] then (StateOk, "")
    else if rules[0].applies then (rules[0].state, rules[0].reason)
    else FirstApplying(rules[1..])
  }

  /** The verdict on a value is that of the first rule that applies. */
  function Verdict(m: OidMonitor, value: real): (ResultState, string) {
    FirstApplying(Rules(m, value))
  }

  method DetermineResultStateAndReason(m: OidMonitor, value: real) returns (state: ResultState, reason: string)
    ensures (state, reason) == Verdict(m, value)
  {
    VerdictUnfolds(m, value);
    if m.critStatusReason != "" {
      for i := 0 to |m.critStatus|
        invariant value !in m.critStatus[..i]
      {
        if value == m.critStatus[i] {
          return StateCrit, m.critStatusReason;
        }
      }
    }
    if m.warnStatusReason != "" {
      for i := 0 to |m.warnStatus|
        invariant value !in m.warnStatus[..i]
      {
        if value == m.warnStatus[i] {
          return StateWarn, m.warnStatusReason;
        }
      }
    }
    if m.critMinReason != "" && value < m.critMin {
      return StateCrit, m.critMinReason;
    } else if m.warnMinReason != "" && value < m.warnMin {
      return StateWarn, m.warnMinReason;
    } else if m.critMaxReason != "" && value > m.critMax {
      return StateCrit, m.critMaxReason;
    } else if m.warnMaxReason != "" && value > m.warnMax {
      return StateWarn, m.warnMaxReason;
    }
    return StateOk, "";
  }

  lemma VerdictUnfolds(m: OidMonitor, value: real)
    ensures var r := Rules(m, value);
            Verdict(m, value) ==
            (if r[0].applies then (r[0].state, r[0].reason)
             else if r[1].applies then (r[1].state, r[1].reason)
             else if r[2].applies then (r[2].state, r[2].reason)
             else if r[3].applies then (r[3].state, r[3].reason)
             else if r[4].applies then (r[4].state, r[4].reason)
             else if r[5].applies then (r[5].state, r[5].reason)
             else (StateOk, ""))
  {
    var r := Rules(m, value);
    assert r[0..] == r && r[6..] == [];
    for k := 0 to 6
      invariant forall j :: 0 <= j < k ==>
                  (FirstApplying(r[j..]) ==
                   if r[j].applies then (r[j].state, r[j].reason) else FirstApplying(r[j + 1..]))
    {
      assert r[k..][1..] == r[k + 1..];
    }
  }

  predicate Applies(m: OidMonitor, value: real, state: ResultState) {
    exists i :: 0 <= i < 6 && Rules(m, value)[i].applies && Rules(m, value)[i].state == state
  }

  /** OK means that no rule applies, and a verdict always carries a reason otherwise. */
  lemma VerdictSound(m: OidMonitor, value: real)
    ensures Verdict(m, value).0 == StateOk <==> !Applies(m, value, StateWarn) && !Applies(m, value, StateCrit)
    ensures Verdict(m, value).0 == StateOk <==> Verdict(m, value).1 == ""
    ensures Verdict(m, value).0 != StateUnknown
  {
    VerdictUnfolds(m, value);
    var r := Rules(m, value);
    if Verdict(m, value).0 != StateOk {
      var i := if r[0].applies then 0 else if r[1].applies then 1 else if r[2].applies then 2
               else if r[3].applies then 3 else if r[4].applies then 4 else 5;
      assert r[i].applies;
    }
  }

  /** A value that breaks a critical rule is reported as WARN exactly when a warning rule that is
      tried earlier applies: a warning status, or the warning minimum against the critical maximum. */
  lemma CritHiddenByWarn(m: OidMonitor, value: real)
    ensures var r := Rules(m, value);
            (Verdict(m, value).0 != StateCrit && Applies(m, value, StateCrit)) <==>
            (!r[0].applies && ((r[1].applies && (r[2].applies || r[4].applies))
                               || (!r[2].applies && r[3].applies && r[4].applies)))
  {
    VerdictUnfolds(m, value);
    var r := Rules(m, value);
    if r[2].applies || r[4].applies || r[0].applies {
      var i := if r[0].applies then 0 else if r[2].applies then 2 else 4;
      assert r[i].applies && r[i].state == StateCrit;
    }
  }

  /** The verdict in terms of the monitor and the value alone: statuses come before thresholds, a
      critical status before a warning one, the minimum before the maximum, and in each of those
      critical before warning; a rule without a reason does not exist. */
  lemma VerdictMeans(m: OidMonitor, value: real)
    ensures var critStatus := m.critStatusReason != "" && value in m.critStatus;
            var warnStatus := m.warnStatusReason != "" && value in m.warnStatus;
            var critMin := m.critMinReason != "" && value < m.critMin;
            var warnMin := m.warnMinReason != "" && value < m.warnMin;
            var critMax := m.critMaxReason != "" && m.critMax < value;
            var warnMax := m.warnMaxReason != "" && m.warnMax < value;
            var v := Verdict(m, value);
            && (v.0 == StateCrit <==> critStatus || (!warnStatus && (critMin || (!warnMin && critMax))))
            && (v.0 == StateWarn <==>
                !critStatus && (warnStatus || (!critMin && (warnMin || (!critMax && warnMax)))))
            && (v.0 == StateOk <==> !(critStatus || warnStatus || critMin || warnMin || critMax || warnMax))
            && (v.0 == StateCrit ==>
                  v.1 == if critStatus then m.critStatusReason else if critMin then m.critMinReason else m.critMaxReason)
            && (v.0 == StateWarn ==>
                  v.1 == if warnStatus then m.warnStatusReason else if warnMin then m.warnMinReason else m.warnMaxReason)
            && (v.0 == StateOk ==> v.1 == "")
  {
    VerdictUnfolds(m, value);
  }

  // ---- what a run is given ----

  /** The monitors, the check's last metrics and last-check time, the clock, and the two text
      conversions of big floats: reading a gauge that arrives as text, printing a gauge. */
  datatype Env = Env(
    monitors: seq<OidMonitor>,
    lastMetrics: Option<seq<ResultMetric>>,
    lastCheck: Option<Time>,
    now: Time,
    readFloat: string -> real,
    printFloat: real -> string)

  /** What Getter.Get answers. */
  datatype Response = Objects(objects: seq<Object>) | GetError(message: string, requestTimeout: bool)

  /** Of several monitors with one oid the last one counts. */
  function MonitorsByOid(monitors: seq<OidMonitor>): map<string, OidMonitor> {
    if monitors == [] then map[]
    else
      var last := monitors[|monitors| - 1];
      MonitorsByOid(monitors[..|monitors| - 1])[last.oid := last]
  }

  /** An oid leads to the last monitor that has it. */
  lemma {:induction false} LastMonitorWins(monitors: seq<OidMonitor>, i: nat)
    requires i < |monitors| && forall j :: i < j < |monitors| ==> monitors[j].oid != monitors[i].oid
    ensures monitors[i].oid in MonitorsByOid(monitors) && MonitorsByOid(monitors)[monitors[i].oid] == monitors[i]
    decreases |monitors|
  {
    if i < |monitors| - 1 {
      LastMonitorWins(monitors[..|monitors| - 1], i);
    }
  }

  lemma {:induction false} OnlyMonitoredOids(monitors: seq<OidMonitor>, oid: string)
    ensures oid in MonitorsByOid(monitors) <==> exists i :: 0 <= i < |monitors| && monitors[i].oid == oid
    decreases |monitors|
  {
    if monitors != [] {
      var n := |monitors| - 1;
      OnlyMonitoredOids(monitors[..n], oid);
      if i :| 0 <= i < |monitors| && monitors[i].oid == oid && i < n {
        assert monitors[..n][i].oid == oid;
      }
    }
  }

  datatype Lookup = Found(m: OidMonitor) | NotFound | EmptyOid

  /** The oid as received, then without its leading dot; slicing an empty oid panics. */
  function FindMonitor(byOid: map<string, OidMonitor>, oid: string): Lookup {
    if oid in byOid then Found(byOid[oid])
    else if oid == "" then EmptyOid
    else if oid[0] == '.' && oid[1..] in byOid then Found(byOid[oid[1..]])
    else NotFound
  }

  function Find(env: Env, o: Object): Lookup {
    FindMonitor(MonitorsByOid(env.monitors), o.oid)
  }

  /** An object belongs to the last monitor of its oid; only if there is none, and its oid starts
      with a dot, to the last monitor of the rest of it; otherwise to none. */
  lemma FindMeans(env: Env, o: Object)
    ensures forall i :: LastOf(env.monitors, i, o.oid) ==> Find(env, o) == Found(env.monitors[i])
    ensures (forall i :: !LastOf(env.monitors, i, o.oid)) && |o.oid| > 0 && o.oid[0] == '.' ==>
              forall i :: LastOf(env.monitors, i, o.oid[1..]) ==> Find(env, o) == Found(env.monitors[i])
    ensures (forall i :: !LastOf(env.monitors, i, o.oid)) && |o.oid| > 0
            && (o.oid[0] != '.' || forall i :: !LastOf(env.monitors, i, o.oid[1..])) ==>
              Find(env, o) == NotFound
    ensures (forall i :: !LastOf(env.monitors, i, o.oid)) && o.oid == "" ==> Find(env, o) == EmptyOid
  {
    ByLast(env.monitors, o.oid);
    if |o.oid| > 0 {
      ByLast(env.monitors, o.oid[1..]);
    }
  }

  predicate LastOf(monitors: seq<OidMonitor>, i: int, oid: string) {
    0 <= i < |monitors| && monitors[i].oid == oid && forall j :: i < j < |monitors| ==> monitors[j].oid != oid
  }

  lemma {:induction false} SomeLast(monitors: seq<OidMonitor>, i: nat, oid: string) returns (k: nat)
    requires i < |monitors| && monitors[i].oid == oid
    ensures LastOf(monitors, k, oid)
    decreases |monitors| - i
  {
    if j :| i < j < |monitors| && monitors[j].oid == oid {
      k := SomeLast(monitors, j, oid);
    } else {
      k := i;
    }
  }

  lemma ByLast(monitors: seq<OidMonitor>, oid: string)
    ensures oid in MonitorsByOid(monitors) <==> exists i :: LastOf(monitors, i, oid)
    ensures forall i :: LastOf(monitors, i, oid) ==>
              oid in MonitorsByOid(monitors) && MonitorsByOid(monitors)[oid] == monitors[i]
  {
    OnlyMonitoredOids(monitors, oid);
    forall i | LastOf(monitors, i, oid)
      ensures oid in MonitorsByOid(monitors) && MonitorsByOid(monitors)[oid] == monitors[i]
    {
      LastMonitorWins(monitors, i);
    }
    if i :| 0 <= i < |monitors| && monitors[i].oid == oid {
      var k := SomeLast(monitors, i, oid);
    }
  }

  function FirstByName(metrics: seq<ResultMetric>, name: string): Option<ResultMetric> {
    if metrics == [] then None
    else if metrics[0].name == name then Some(metrics[0])
    else FirstByName(metrics[1..], name)
  }

  predicate FirstNamed(metrics: seq<ResultMetric>, i: nat, name: string)
    requires i < |metrics|
  {
    metrics[i].name == name && forall j :: 0 <= j < i ==> metrics[j].name != name
  }

  /** The metric found by name is the first one that has it, and none only if none has it. */
  lemma {:induction false} FirstByNameMeans(metrics: seq<ResultMetric>, name: string)
    ensures var m := FirstByName(metrics, name);
            && (m.None? <==> forall j :: 0 <= j < |metrics| ==> metrics[j].name != name)
            && (forall i :: 0 <= i < |metrics| && FirstNamed(metrics, i, name) ==> m == Some(metrics[i]))
  {
    if metrics != [] && metrics[0].name != name {
      FirstByNameMeans(metrics[1..], name);
      forall i | 0 <= i < |metrics| && FirstNamed(metrics, i, name)
        ensures FirstByName(metrics, name) == Some(metrics[i])
      {
        assert metrics[1..][i - 1] == metrics[i];
        assert forall j :: 0 <= j < i - 1 ==> metrics[1..][j] == metrics[j + 1];
      }
      assert forall j :: 0 < j < |metrics| ==> metrics[j] == metrics[1..][j - 1];
    }
  }

  method GetChecksLastResultMetricByLabel(env: Env, name: string) returns (m: Option<ResultMetric>)
    ensures m == if env.lastMetrics.None? then None else FirstByName(env.lastMetrics.value, name)
  {
    if env.lastMetrics.Some? {
      var metrics := env.lastMetrics.value;
      for k := 0 to |metrics|
        invariant FirstByName(metrics, name) == FirstByName(metrics[k..], name)
      {
        if metrics[k].name == name {
          return Some(metrics[k]);
        }
        assert metrics[k..][1..] == metrics[k + 1..];
      }
    }
    return None;
  }

  /** The last raw value of a counter: the first metric of that name, if it reads as an integer. */
  function LastCounter(env: Env, name: string): Option<int> {
    if env.lastMetrics.None? then None
    else
      var m := FirstByName(env.lastMetrics.value, name);
      if m.None? then None else Decimal.ParseInteger(m.value.value)
  }

  /** The divisor of a counter's rate, in whole seconds. */
  function Elapsed(env: Env): int
    requires env.lastCheck.Some?
  {
    Unix(env.now) - Unix(env.lastCheck.value)
  }

  /** What a text reads as, and how a number is printed. */
  function Read(env: Env, s: string): real {
    env.readFloat(s)
  }

  function Print(env: Env, x: real): string {
    env.printFloat(x)
  }

  function GaugeValue(env: Env, value: Value): real
    requires InRange(value)
  {
    match value
    case Text(s) => Read(env, s)
    case Bytes(b) => Read(env, b)
    case _ => BigIntOf(value) as real
  }

  function Scaled(m: OidMonitor, x: real): (y: real)
    ensures y == m.postProcessValue * x
  {
    x * m.postProcessValue
  }

  function GaugeText(env: Env, m: OidMonitor, value: real): string {
    Print(env, Scaled(m, value))
  }

  // ---- what each object says, regardless of the others ----

  datatype Opinion = Silent | Says(state: ResultState, reason: string) | DividesByZero

  /** The verdict on the rate at which a counter went from last to current. */
  function RateOpinion(m: OidMonitor, last: int, current: int, seconds: int): Opinion
    requires seconds != 0
  {
    var v := Verdict(m, (CounterDiff(last, current) / seconds) as real);
    Says(v.0, v.1)
  }

  function OpinionOf(env: Env, m: OidMonitor, o: Object): Opinion
    requires InRange(o.value)
  {
    if o.kind == Null then Silent
    else if o.IsCounter() then
      var last := LastCounter(env, m.name);
      if last.None? || env.lastCheck.None? then Silent
      else if Elapsed(env) == 0 then DividesByZero
      else RateOpinion(m, last.value, BigIntOf(o.value), Elapsed(env))
    else
      var v := Verdict(m, GaugeValue(env, o.value));
      Says(v.0, v.1)
  }

  /** The rate is the whole number of counts per second: q such that q seconds' worth fits into the
      difference and one second's worth more does not.  On rollover the largest value of the width
      that the last reading suggests is added. */
  lemma RateMeans(m: OidMonitor, last: int, current: int, seconds: int, q: int)
    requires seconds > 0
    requires var diff := if last <= current then current - last
                         else if 4294967295 <= last then current - last + 18446744073709551615
                         else current - last + 4294967295;
             q * seconds <= diff < (q + 1) * seconds
    ensures RateOpinion(m, last, current, seconds) == Says(Verdict(m, q as real).0, Verdict(m, q as real).1)
  {
    QuotientUnique(CounterDiff(last, current), seconds, q);
  }

  lemma QuotientUnique(n: int, d: int, q: int)
    requires d > 0 && q * d <= n < (q + 1) * d
    ensures n / d == q
  {
    var p := n / d;
    assert p * d <= n < (p + 1) * d;
    TimesMonotone(p + 1, q, d);
    TimesMonotone(q + 1, p, d);
  }

  lemma TimesMonotone(a: int, b: int, d: int)
    requires d > 0
    ensures a <= b ==> a * d <= b * d
  {
  }

  predicate WellTyped(objects: seq<Object>) {
    forall i :: 0 <= i < |objects| ==> InRange(objects[i].value)
  }

  function OpinionAt(env: Env, objects: seq<Object>, i: nat): Opinion
    requires i < |objects| && WellTyped(objects)
  {
    var l := Find(env, objects[i]);
    if l.Found? then OpinionOf(env, l.m, objects[i]) else Silent
  }

  /** The metric of an object: counters as received, gauges scaled by the monitor's factor. */
  function MetricOf(env: Env, m: OidMonitor, o: Object): ResultMetric
    requires InRange(o.value)
  {
    if o.IsCounter() then ResultMetric(m.name, Decimal.Text(BigIntOf(o.value)), Counter)
    else ResultMetric(m.name, GaugeText(env, m, GaugeValue(env, o.value)), Gauge)
  }

  /** The metrics of all objects that have a monitor and are not null, in order. */
  function MetricsOf(env: Env, objects: seq<Object>): seq<ResultMetric>
    requires WellTyped(objects)
  {
    if objects == [] then []
    else
      var n := |objects| - 1;
      var l := Find(env, objects[n]);
      MetricsOf(env, objects[..n]) +
      (if l.Found? && objects[n].kind != Null then [MetricOf(env, l.m, objects[n])] else [])
  }

  function Opinions(env: Env, objects: seq<Object>): (ops: seq<Opinion>)
    requires WellTyped(objects)
    ensures |ops| == |objects|
  {
    seq(|objects|, i requires 0 <= i < |objects| => OpinionAt(env, objects, i))
  }

  /** The plain meaning of aggregation: the worst state anyone says, with the reason of the first
      who says it, and UNKNOWN when nobody says anything. */
  predicate Worst(ops: seq<Opinion>, state: ResultState, reason: string) {
    if forall j :: 0 <= j < |ops| ==> !ops[j].Says? then state == StateUnknown && reason == ""
    else exists k :: 0 <= k < |ops| && FirstWorst(ops, k, state, reason)
  }

  predicate FirstWorst(ops: seq<Opinion>, k: nat, state: ResultState, reason: string)
    requires k < |ops|
  {
    && ops[k] == Says(state, reason)
    && (forall j :: 0 <= j < |ops| && ops[j].Says? ==>
          ops[j].state.Rank() <= state.Rank() && (j < k ==> ops[j].state.Rank() < state.Rank()))
  }

  predicate AlreadyCrit(ops: seq<Opinion>, i: nat)
    requires i <= |ops|
  {
    exists j :: 0 <= j < i && ops[j].Says? && ops[j].state == StateCrit
  }

  /** The loop cannot get past object i: it has no monitor, or it is a counter whose rate has a
      zero divisor and is needed because nothing before it was critical. */
  predicate StopsAt(env: Env, objects: seq<Object>, i: nat)
    requires i < |objects| && WellTyped(objects)
  {
    || !Find(env, objects[i]).Found?
    || (OpinionAt(env, objects, i).DividesByZero? && !AlreadyCrit(Opinions(env, objects), i))
  }

  datatype Outcome =
    | Done(state: ResultState, reason: string, metrics: seq<ResultMetric>)
    | Failed(reason: string, err: Option<string>)
    | PanicOnEmptyOid
    | PanicOnZeroDivisor

  function NotFoundMessage(oid: string): string {
    "snmp.Command.Run(): oid " + oid + " could not be found in monitors"
  }

  function StopOutcome(env: Env, objects: seq<Object>, i: nat): Outcome
    requires i < |objects| && WellTyped(objects)
  {
    match Find(env, objects[i])
    case NotFound => Failed("CMD_FAILURE", Some(NotFoundMessage(objects[i].oid)))
    case EmptyOid => PanicOnEmptyOid
    case Found(_) => PanicOnZeroDivisor
  }

  /** One more opinion replaces the worst so far exactly when it overrides it. */
  lemma WorstNext(ops: seq<Opinion>, o: Opinion, state: ResultState, reason: string)
    requires Worst(ops, state, reason) && (o.Says? ==> o.state != StateUnknown)
    requires NeverUnknown(ops)
    ensures if o.Says? && o.state.Overrides(state) then Worst(ops + [o], o.state, o.reason)
            else Worst(ops + [o], state, reason)
  {
    var after := ops + [o];
    if o.Says? {
      OverridesIsWorse(o.state, state);
      assert after[|ops|].Says?;
    }
    if o.Says? && o.state.Overrides(state) {
      assert FirstWorst(after, |ops|, o.state, o.reason);
    } else if k :| 0 <= k < |ops| && FirstWorst(ops, k, state, reason) {
      assert FirstWorst(after, k, state, reason);
    }
  }

  /** The worst opinion is unique. */
  lemma WorstIsUnique(ops: seq<Opinion>, s: ResultState, r: string, s': ResultState, r': string)
    requires Worst(ops, s, r) && Worst(ops, s', r')
    ensures s == s' && r == r'
  {
    if !(forall j :: 0 <= j < |ops| ==> !ops[j].Says?) {
      var k :| 0 <= k < |ops| && FirstWorst(ops, k, s, r);
      var l :| 0 <= l < |ops| && FirstWorst(ops, l, s', r');
      OverridesIsWorse(s, s');
      assert k == l;
    }
  }

  lemma OpinionNeverUnknown(env: Env, m: OidMonitor, o: Object)
    requires InRange(o.value)
    ensures OpinionOf(env, m, o).Says? ==> OpinionOf(env, m, o).state != StateUnknown
  {
    if OpinionOf(env, m, o).Says? {
      if o.IsCounter() {
        VerdictSound(m, (CounterDiff(LastCounter(env, m.name).value, BigIntOf(o.value)) / Elapsed(env)) as real);
      } else {
        VerdictSound(m, GaugeValue(env, o.value));
      }
    }
  }

  /** The counter branch: the rate of the object's own big integer, computed in place. */
  method JudgeCounter(env: Env, m: OidMonitor, value: BigInt) returns (o: Opinion)
    modifies value
    ensures var last := LastCounter(env, m.name);
            o == if last.None? || env.lastCheck.None? then Silent
                 else if Elapsed(env) == 0 then DividesByZero
                 else RateOpinion(m, last.value, old(value.v), Elapsed(env))
  {
    var lastMetric := GetChecksLastResultMetricByLabel(env, m.name);
    var parsed := if lastMetric.Some? then Decimal.ParseInteger(lastMetric.value.value) else None;
    if parsed.None? || env.lastCheck.None? {
      return Silent;
    }
    var lastValue := new BigInt(parsed.value);
    var diff := CalculateCounterDiff(lastValue, value);
    var timeDiff := new BigInt(Unix(env.now));
    var lastTime := new BigInt(Unix(env.lastCheck.value));
    timeDiff.Sub(timeDiff, lastTime);
    if timeDiff.v == 0 {
      return DividesByZero;
    }
    diff.Div(diff, timeDiff);
    var state, reason := DetermineResultStateAndReason(m, diff.v as real);
    return Says(state, reason);
  }

  lemma CritMeansAlreadyCrit(ops: seq<Opinion>, state: ResultState, reason: string)
    requires Worst(ops, state, reason)
    ensures state == StateCrit <==> AlreadyCrit(ops, |ops|)
  {
    if j :| 0 <= j < |ops| && ops[j].Says? && ops[j].state == StateCrit {
      var k :| 0 <= k < |ops| && FirstWorst(ops, k, state, reason);
      OverridesIsWorse(state, StateCrit);
    }
  }

  /** The worst so far, after one more opinion. */
  lemma Absorb(ops: seq<Opinion>, i: nat, state: ResultState, reason: string)
    requires i < |ops| && NeverUnknown(ops) && Worst(ops[..i], state, reason)
    ensures if ops[i].Says? && ops[i].state.Overrides(state) then Worst(ops[..i + 1], ops[i].state, ops[i].reason)
            else Worst(ops[..i + 1], state, reason)
  {
    assert ops[..i + 1] == ops[..i] + [ops[i]];
    WorstNext(ops[..i], ops[i], state, reason);
  }

  predicate NeverUnknown(ops: seq<Opinion>) {
    forall j :: 0 <= j < |ops| && ops[j].Says? ==> ops[j].state != StateUnknown
  }

  lemma NobodySaysUnknown(env: Env, objects: seq<Object>)
    requires WellTyped(objects)
    ensures NeverUnknown(Opinions(env, objects))
  {
    forall j | 0 <= j < |objects|
      ensures OpinionAt(env, objects, j).Says? ==> OpinionAt(env, objects, j).state != StateUnknown
    {
      if Find(env, objects[j]).Found? {
        OpinionNeverUnknown(env, Find(env, objects[j]).m, objects[j]);
      }
    }
  }

  method IndexMonitors(monitors: seq<OidMonitor>) returns (byOid: map<string, OidMonitor>)
    ensures byOid == MonitorsByOid(monitors)
  {
    byOid := map[];
    for k := 0 to |monitors|
      invariant byOid == MonitorsByOid(monitors[..k])
    {
      byOid := byOid[monitors[k].oid := monitors[k]];
      assert monitors[..k + 1][..k] == monitors[..k];
    }
    assert monitors[..|monitors|] == monitors;
  }

  /** One object that has a monitor: the new worst state and reason, unless a rate that is needed
      has a zero divisor.  The printed counter is taken before its big integer is overwritten, and
      a counter is not judged once the state is CRIT. */
  method Consider(env: Env, m: OidMonitor, obj: Object, state: ResultState, reason: string)
    returns (panics: bool, state': ResultState, reason': string, metric: ResultMetric)
    requires InRange(obj.value) && obj.kind != Null
    ensures var o := OpinionOf(env, m, obj);
            && (panics <==> o.DividesByZero? && state != StateCrit)
            && (!panics ==>
                  (state', reason') ==
                  if o.Says? && o.state.Overrides(state) then (o.state, o.reason) else (state, reason))
            && metric == MetricOf(env, m, obj)
  {
    state', reason', panics := state, reason, false;
    if obj.IsCounter() {
      var value := ToBigInt(obj.value);
      metric := ResultMetric(m.name, Decimal.Text(value.v), Counter);
      if state != StateCrit {
        var o := JudgeCounter(env, m, value);
        panics := o.DividesByZero?;
        if o.Says? && o.state.Overrides(state) {
          state', reason' := o.state, o.reason;
        }
      }
    } else {
      var value := GaugeValue(env, obj.value);
      var s, r := DetermineResultStateAndReason(m, value);
      if s.Overrides(state) {
        state', reason' := s, r;
      }
      metric := ResultMetric(m.name, GaugeText(env, m, value), Gauge);
    }
  }

  /** Command.Run.  A run that completes reports the worst opinion of all objects, although the
      loop never looks at counters once it is CRIT, and the metrics of all of them; a run that
      does not stops at the first object that stops it. */
  method Run(env: Env, response: Response) returns (out: Outcome)
    requires response.Objects? ==> WellTyped(response.objects)
    ensures response.GetError? ==>
              out == if response.requestTimeout then Failed("CONNECTION_ERROR", None)
                     else Failed("CMD_FAILURE", Some(response.message))
    ensures out.Done? ==> response.Objects? && Completes(env, response.objects, out)
    ensures response.Objects? && !out.Done? ==>
              var stop := FirstStop(env, response.objects, |response.objects|);
              stop.Some? && out == StopOutcome(env, response.objects, stop.value)
  {
    var byOid := IndexMonitors(env.monitors);
    if response.GetError? {
      if response.requestTimeout {
        return Failed("CONNECTION_ERROR", None);
      }
      return Failed("CMD_FAILURE", Some(response.message));
    }
    out := Aggregate(env, byOid, response.objects);
  }

  /** The loop over the objects. */
  method Aggregate(env: Env, byOid: map<string, OidMonitor>, objects: seq<Object>) returns (out: Outcome)
    requires WellTyped(objects) && byOid == MonitorsByOid(env.monitors)
    ensures out.Done? ==> Completes(env, objects, out)
    ensures !out.Done? ==>
              var stop := FirstStop(env, objects, |objects|);
              stop.Some? && out == StopOutcome(env, objects, stop.value)
  {
    var resultMetrics: seq<ResultMetric> := [];
    var resultState, resultReason := StateUnknown, "";
    ghost var ops := Opinions(env, objects);
    NobodySaysUnknown(env, objects);
    for i := 0 to |objects|
      invariant FirstStop(env, objects, i).None?
      invariant Worst(ops[..i], resultState, resultReason)
      invariant resultMetrics == MetricsOf(env, objects[..i])
    {
      NextStop(env, objects, i, resultState, resultReason);
      Absorb(ops, i, resultState, resultReason);
      MetricsNext(env, objects, i);
      var found := FindMonitor(byOid, objects[i].oid);
      if found.EmptyOid? {
        StopSticks(env, objects, i);
        return PanicOnEmptyOid;
      }
      if found.NotFound? {
        StopSticks(env, objects, i);
        return Failed("CMD_FAILURE", Some(NotFoundMessage(objects[i].oid)));
      }
      if objects[i].kind != Null {
        var panics, state, reason, metric := Consider(env, found.m, objects[i], resultState, resultReason);
        if panics {
          StopSticks(env, objects, i);
          return PanicOnZeroDivisor;
        }
        assert Worst(ops[..i + 1], state, reason);
        resultState, resultReason := state, reason;
        resultMetrics := resultMetrics + [metric];
      }
    }
    assert objects[..|objects|] == objects && ops[..|objects|] == ops;
    return Done(resultState, resultReason, resultMetrics);
  }

  /** Whether the loop stops at object i, in terms of the state reached so far. */
  lemma NextStop(env: Env, objects: seq<Object>, i: nat, state: ResultState, reason: string)
    requires i < |objects| && WellTyped(objects)
    requires Worst(Opinions(env, objects)[..i], state, reason)
    ensures StopsAt(env, objects, i) <==>
            var l := Find(env, objects[i]);
            !l.Found? || (OpinionOf(env, l.m, objects[i]).DividesByZero? && state != StateCrit)
  {
    var ops := Opinions(env, objects);
    CritMeansAlreadyCrit(ops[..i], state, reason);
    SameAlreadyCrit(ops, i);
  }

  lemma MetricsNext(env: Env, objects: seq<Object>, i: nat)
    requires i < |objects| && WellTyped(objects)
    ensures var l := Find(env, objects[i]);
            MetricsOf(env, objects[..i + 1]) == MetricsOf(env, objects[..i]) +
              (if l.Found? && objects[i].kind != Null then [MetricOf(env, l.m, objects[i])] else [])
  {
    assert objects[..i + 1][..i] == objects[..i];
  }

  /** No object stops the loop, the state and reason are the worst opinion's, and every object
      that is monitored and not null has its metric. */
  predicate Completes(env: Env, objects: seq<Object>, out: Outcome)
    requires WellTyped(objects) && out.Done?
  {
    && FirstStop(env, objects, |objects|).None?
    && Worst(Opinions(env, objects), out.state, out.reason)
    && out.metrics == MetricsOf(env, objects)
  }

  /** The first of the first n objects that stops the loop. */
  function FirstStop(env: Env, objects: seq<Object>, n: nat): (i: Option<nat>)
    requires n <= |objects| && WellTyped(objects)
    ensures i.Some? ==> i.value < n && StopsAt(env, objects, i.value)
  {
    if n == 0 then None
    else if FirstStop(env, objects, n - 1).Some? then FirstStop(env, objects, n - 1)
    else if StopsAt(env, objects, n - 1) then Some(n - 1)
    else None
  }

  /** FirstStop is the least index at which the loop stops, None if there is none. */
  lemma {:induction false} FirstStopIsLeast(env: Env, objects: seq<Object>, n: nat, i: nat)
    requires i < n <= |objects| && WellTyped(objects)
    requires FirstStop(env, objects, n).Some? ==> i < FirstStop(env, objects, n).value
    ensures !StopsAt(env, objects, i)
  {
    if i < n - 1 {
      FirstStopIsLeast(env, objects, n - 1, i);
    }
  }

  lemma {:induction false} StopSticks(env: Env, objects: seq<Object>, i: nat, n: nat := |objects|)
    requires i < n <= |objects| && WellTyped(objects)
    requires FirstStop(env, objects, i).None? && StopsAt(env, objects, i)
    ensures FirstStop(env, objects, n) == Some(i)
  {
    if i < n - 1 {
      StopSticks(env, objects, i, n - 1);
    }
  }

  lemma SameAlreadyCrit(ops: seq<Opinion>, i: nat)
    requires i <= |ops|
    ensures AlreadyCrit(ops[..i], i) <==> AlreadyCrit(ops, i)
  {
    if j :| 0 <= j < i && ops[j].Says? && ops[j].state == StateCrit {
      assert ops[..i][j].Says?;
    }
  }

  // ---- runs over one object ----

  lemma OneObject(env: Env, o: Object)
    requires InRange(o.value)
    ensures MetricsOf(env, [o]) ==
            if Find(env, o).Found? && o.kind != Null then [MetricOf(env, Find(env, o).m, o)] else []
    ensures FirstStop(env, [o], 1) == if StopsAt(env, [o], 0) then Some(0) else None
    ensures StopsAt(env, [o], 0) <==> !Find(env, o).Found? || OpinionAt(env, [o], 0).DividesByZero?
    ensures forall state, reason :: Worst(Opinions(env, [o]), state, reason) ==>
              if OpinionAt(env, [o], 0).Says? then OpinionAt(env, [o], 0) == Says(state, reason)
              else state == StateUnknown && reason == ""
  {
    assert [o][..0] == [];
    assert FirstStop(env, [o], 0) == None;
    assert Opinions(env, [o])[0] == OpinionAt(env, [o], 0);
  }

  /** An integer gauge of a monitored oid, which agents report with a leading dot: the run is done,
      the value is judged as it is and reported scaled, as a gauge under the monitor's name. */
  method OneGauge(env: Env, m: OidMonitor, n: int) returns (out: Outcome)
    requires env.monitors == [m] && m.oid != "" && m.oid[0] != '.' && Fits(Int, n)
    ensures var v := Verdict(m, n as real);
            out == Done(v.0, v.1, [ResultMetric(m.name, Print(env, Scaled(m, n as real)), Gauge)])
  {
    var o := Object(OtherKind, Integer(Int, n), "." + m.oid);
    DottedOid(env, m, o);
    OneObject(env, o);
    out := Run(env, Objects([o]));
  }

  lemma DottedOid(env: Env, m: OidMonitor, o: Object)
    requires env.monitors == [m] && m.oid != "" && m.oid[0] != '.' && o.oid == "." + m.oid
    ensures Find(env, o) == Found(m)
  {
    FindMeans(env, o);
    assert o.oid[1..] == m.oid && o.oid[0] == '.';
    assert LastOf(env.monitors, 0, m.oid);
    assert m.oid[0] != o.oid[0];
  }

  /** Any other kind of value: an integer counts for itself and text for what it reads as; that is
      judged, and reported multiplied by the monitor's factor. */
  lemma GaugeMeans(env: Env, m: OidMonitor, value: Value, oid: string, x: real)
    requires InRange(value) && !value.Other?
    requires value.Integer? ==> value.t != Uint && x == value.n as real
    requires value.Text? ==> x == Read(env, value.s)
    requires value.Bytes? ==> x == Read(env, value.b)
    ensures var o := Object(OtherKind, value, oid);
            && MetricOf(env, m, o) == ResultMetric(m.name, Print(env, Scaled(m, x)), Gauge)
            && OpinionOf(env, m, o) == Says(Verdict(m, x).0, Verdict(m, x).1)
  {
    assert GaugeValue(env, value) == x;
    assert GaugeText(env, m, x) == Print(env, Scaled(m, x));
  }

  /** A counter of a monitored oid: its raw value is reported as text under the monitor's name, and
      it is judged by its rate if there is a last value and a time to go with it. */
  method OneCounter(env: Env, m: OidMonitor, kind: Kind, n: int, ghost last: int) returns (out: Outcome)
    requires kind == Counter32 || kind == Counter64
    requires env.monitors == [m] && m.oid != "" && m.oid[0] != '.' && Fits(Uint64, n)
    requires env.lastCheck.Some? ==> Unix(env.now) > Unix(env.lastCheck.value)
    ensures out.Done? && out.metrics == [ResultMetric(m.name, Decimal.Text(n), Counter)]
    ensures env.lastMetrics.None? || env.lastCheck.None? ==> out.state == StateUnknown && out.reason == ""
    ensures env.lastMetrics == Some([ResultMetric(m.name, Decimal.Text(last), Counter)]) && env.lastCheck.Some? ==>
              RateOpinion(m, last, n, Unix(env.now) - Unix(env.lastCheck.value)) == Says(out.state, out.reason)
  {
    var o := Object(kind, Integer(Uint64, n), "." + m.oid);
    DottedOid(env, m, o);
    OneObject(env, o);
    OneCounterOpinion(env, m, o, n, last);
    out := Run(env, Objects([o]));
  }

  lemma OneCounterOpinion(env: Env, m: OidMonitor, o: Object, n: int, last: int)
    requires (o.kind == Counter32 || o.kind == Counter64) && o.value == Integer(Uint64, n) && Fits(Uint64, n)
    requires env.lastCheck.Some? ==> Unix(env.now) > Unix(env.lastCheck.value)
    ensures !OpinionOf(env, m, o).DividesByZero?
    ensures env.lastMetrics.None? || env.lastCheck.None? ==> OpinionOf(env, m, o) == Silent
    ensures env.lastMetrics == Some([ResultMetric(m.name, Decimal.Text(last), Counter)]) && env.lastCheck.Some? ==>
              OpinionOf(env, m, o) == RateOpinion(m, last, n, Unix(env.now) - Unix(env.lastCheck.value))
  {
    Decimal.ParseText(last);
  }

  /** A null is skipped, and the first object without a monitor ends the run. */
  method NullThenStranger(env: Env, m: OidMonitor, oid: string) returns (out: Outcome)
    requires env.monitors == [m] && m.oid != "" && m.oid[0] != '.'
    requires oid != "" && oid != m.oid && oid != "." + m.oid
    ensures out == Failed("CMD_FAILURE", Some("snmp.Command.Run(): oid " + oid + " could not be found in monitors"))
  {
    var o, o' := Object(Null, Other, "." + m.oid), Object(OtherKind, Other, oid);
    var objects := [o, o'];
    DottedOid(env, m, o);
    FindMeans(env, o');
    if oid[0] == '.' {
      assert oid == "." + oid[1..];
    }
    assert !StopsAt(env, objects, 0) && StopsAt(env, objects, 1);
    assert FirstStop(env, objects, 0) == None;
    StopSticks(env, objects, 1);
    out := Run(env, Objects(objects));
  }

  /** A counter whose rate would divide by zero makes the run panic unless the object before it was
      critical; then it is reported without being judged. */
  method ZeroDivisorAfterGauge(env: Env, m: OidMonitor, n: int, c: int) returns (out: Outcome)
    requires env.monitors == [m] && m.oid != "" && m.oid[0] != '.' && Fits(Int, n) && Fits(Uint64, c)
    requires env.lastCheck == Some(env.now)
    requires env.lastMetrics == Some([ResultMetric(m.name, Decimal.Text(c), Counter)])
    ensures Verdict(m, n as real).0 != StateCrit ==> out == PanicOnZeroDivisor
    ensures Verdict(m, n as real).0 == StateCrit ==>
              out == Done(StateCrit, Verdict(m, n as real).1,
                          [ResultMetric(m.name, Print(env, Scaled(m, n as real)), Gauge),
                           ResultMetric(m.name, Decimal.Text(c), Counter)])
  {
    var gauge := Object(OtherKind, Integer(Int, n), "." + m.oid);
    var counter := Object(Counter64, Integer(Uint64, c), "." + m.oid);
    GaugeAndCounter(env, m, gauge, counter, n, c);
    DottedOid(env, m, gauge);
    DottedOid(env, m, counter);
    TwoMetrics(env, m, gauge, counter);
    out := Run(env, Objects([gauge, counter]));
  }

  lemma GaugeAndCounter(env: Env, m: OidMonitor, gauge: Object, counter: Object, n: int, c: int)
    requires env.monitors == [m] && m.oid != "" && m.oid[0] != '.' && Fits(Int, n) && Fits(Uint64, c)
    requires gauge == Object(OtherKind, Integer(Int, n), "." + m.oid)
    requires counter == Object(Counter64, Integer(Uint64, c), "." + m.oid)
    requires env.lastCheck == Some(env.now)
    requires env.lastMetrics == Some([ResultMetric(m.name, Decimal.Text(c), Counter)])
    ensures var objects, v := [gauge, counter], Verdict(m, n as real);
            && FirstStop(env, objects, 2) == (if v.0 == StateCrit then None else Some(1))
            && StopOutcome(env, objects, 1) == PanicOnZeroDivisor
            && forall state, reason :: Worst(Opinions(env, objects), state, reason) ==> state == v.0 && reason == v.1
  {
    var objects := [gauge, counter];
    DottedOid(env, m, gauge);
    DottedOid(env, m, counter);
    Decimal.ParseText(c);
    assert OpinionAt(env, objects, 0) == Says(Verdict(m, n as real).0, Verdict(m, n as real).1);
    assert OpinionAt(env, objects, 1) == DividesByZero;
    var ops := Opinions(env, objects);
    assert ops[0].Says? && !ops[1].Says?;
    assert AlreadyCrit(ops, 1) <==> ops[0].state == StateCrit;
    assert FirstStop(env, objects, 0) == None && FirstStop(env, objects, 1) == None;
  }

  lemma TwoMetrics(env: Env, m: OidMonitor, o: Object, o': Object)
    requires InRange(o.value) && InRange(o'.value) && o.kind != Null && o'.kind != Null
    requires Find(env, o) == Find(env, o') == Found(m)
    ensures MetricsOf(env, [o, o']) == [MetricOf(env, m, o), MetricOf(env, m, o')]
  {
    var objects := [o, o'];
    MetricsNext(env, objects, 0);
    MetricsNext(env, objects, 1);
    assert objects[..0] == [] && objects[..2] == objects;
  }
}
