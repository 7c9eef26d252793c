/** The statsd handler (check/handler/statsd/statsd.go): metrics as gauge lines. */
module Statsd {
  import opened Wrappers
  import opened Results

  // ---- what is sent ----

  /** One gauge line: name:value|g. */
  datatype Line = Line(name: string, value: string)

  function Render(l: Line): string {
    l.name + ":" + l.value + "|g\n"
  }

  function RenderAll(lines: seq<Line>): string {
    if lines == [] then "" else RenderAll(lines[..|lines| - 1]) + Render(lines[|lines| - 1])
  }

  function Name(prefix: string, metric: ResultMetric): string {
    prefix + "." + metric.name
  }

  /** A negative value needs a line that sets the gauge to zero first, because a signed value is
      an increment; a metric without a value is skipped. */
  function LinesOf(prefix: string, metric: ResultMetric): seq<Line> {
    if metric.value == "" then []
    else if metric.value[0] == '-' then [Line(Name(prefix, metric), "0"), Line(Name(prefix, metric), metric.value)]
    else [Line(Name(prefix, metric), metric.value)]
  }

  function Lines(prefix: string, metrics: seq<ResultMetric>): seq<Line> {
    if metrics == [] then []
    else Lines(prefix, metrics[..|metrics| - 1]) + LinesOf(prefix, metrics[|metrics| - 1])
  }

  /** strings.TrimRight(s, "."). */
  function TrimRightDots(s: string): (t: string)
    ensures t <= s && (t == "" || t[|t| - 1] != '.')
    ensures forall i :: |t| <= i < |s| ==> s[i] == '.'
  {
    if s != "" && s[|s| - 1] == '.' then TrimRightDots(s[..|s| - 1]) else s
  }

  /** metricPrefix is what MetricPrefix yields, None when it is nil; lower is strings.ToLower. */
  function Prefix(metricPrefix: Option<string>, lower: string -> string): (p: string)
    ensures metricPrefix.None? ==> p == ""
    ensures metricPrefix.Some? ==>
              p <= lower(metricPrefix.value) && forall i :: |p| <= i < |lower(metricPrefix.value)| ==>
                lower(metricPrefix.value)[i] == '.'
    ensures p == "" || p[|p| - 1] != '.'
  {
    if metricPrefix.None? then "" else TrimRightDots(lower(metricPrefix.value))
  }

  lemma RenderAppend(lines: seq<Line>, l: Line)
    ensures RenderAll(lines + [l]) == RenderAll(lines) + Render(l)
  {
    assert (lines + [l])[..|lines|] == lines;
  }

  lemma RenderTwo(lines: seq<Line>, l: Line, l': Line)
    ensures RenderAll(lines + [l, l']) == RenderAll(lines) + Render(l) + Render(l')
  {
    RenderAppend(lines, l);
    RenderAppend(lines + [l], l');
    assert lines + [l, l'] == (lines + [l]) + [l'];
  }

  /** The message grows by the lines of the next metric. */
  lemma LinesNext(prefix: string, metrics: seq<ResultMetric>, k: nat)
    requires k < |metrics|
    ensures Lines(prefix, metrics[..k + 1]) == Lines(prefix, metrics[..k]) + LinesOf(prefix, metrics[k])
  {
    assert metrics[..k + 1][..k] == metrics[..k];
  }

  /** The message so far and the text of the next metric. */
  lemma MessageNext(prefix: string, metrics: seq<ResultMetric>, k: nat)
    requires k < |metrics|
    ensures var msg, m := RenderAll(Lines(prefix, metrics[..k])), metrics[k];
            RenderAll(Lines(prefix, metrics[..k + 1])) ==
            if m.value == "" then msg
            else if m.value[0] == '-'
            then msg + Render(Line(Name(prefix, m), "0")) + Render(Line(Name(prefix, m), m.value))
            else msg + Render(Line(Name(prefix, m), m.value))
  {
    var before, m := Lines(prefix, metrics[..k]), metrics[k];
    LinesNext(prefix, metrics, k);
    if m.value == "" {
      assert before + [] == before;
    } else if m.value[0] == '-' {
      RenderTwo(before, Line(Name(prefix, m), "0"), Line(Name(prefix, m), m.value));
    } else {
      RenderAppend(before, Line(Name(prefix, m), m.value));
    }
  }

  /** The message, whose names start with the lower-cased prefix without its trailing dots. */
  function Message(metricPrefix: Option<string>, lower: string -> string, metrics: seq<ResultMetric>): string {
    RenderAll(Lines(Prefix(metricPrefix, lower), metrics))
  }

  method BuildProtocolMessage(metricPrefix: Option<string>, lower: string -> string, metrics: seq<ResultMetric>)
    returns (msg: string)
    ensures msg == Message(metricPrefix, lower, metrics)
  {
    var prefix := "";
    if metricPrefix.Some? {
      prefix := Prefix(metricPrefix, lower);
    }
    msg := "";
    for k := 0 to |metrics|
      invariant msg == RenderAll(Lines(prefix, metrics[..k]))
    {
      MessageNext(prefix, metrics, k);
      var metric := metrics[k];
      if metric.value != "" {
        var name := Name(prefix, metric);
        if metric.value[0] == '-' {
          msg := msg + Render(Line(name, "0"));
        }
        msg := msg + Render(Line(name, metric.value));
      }
    }
    assert metrics[..|metrics|] == metrics;
  }

  // ---- how a StatsD server reads it ----

  /** The part of s before the first c, all of it if there is none. */
  function Before(s: string, c: char): string {
    if s == "" || s[0] == c then "" else [s[0]] + Before(s[1..], c)
  }

  /** The part of s after the first c, nothing if there is none. */
  function After(s: string, c: char): (r: string)
    ensures s != "" ==> |r| < |s|
  {
    if s == "" then "" else if s[0] == c then s[1..] else After(s[1..], c)
  }

  /** name:value|g, or nothing if the line has another form. */
  function ParseLine(s: string): seq<Line> {
    var rest := After(s, ':');
    if ':' in s && '|' in rest && After(rest, '|') == "g" then [Line(Before(s, ':'), Before(rest, '|'))] else []
  }

  function Parse(msg: string): seq<Line>
    decreases |msg|
  {
    if msg == "" then [] else ParseLine(Before(msg, '\n')) + Parse(After(msg, '\n'))
  }

  function Gauge(gauges: map<string, real>, name: string): real {
    if name in gauges then gauges[name] else 0.0
  }

  /** A value without a sign sets the gauge, a signed value is added to it. */
  function Apply(gauges: map<string, real>, l: Line, num: string -> real): map<string, real> {
    if l.value != "" && (l.value[0] == '-' || l.value[0] == '+')
    then gauges[l.name := Gauge(gauges, l.name) + num(l.value)]
    else gauges[l.name := num(l.value)]
  }

  function ApplyAll(gauges: map<string, real>, lines: seq<Line>, num: string -> real): map<string, real> {
    if lines == [] then gauges
    else Apply(ApplyAll(gauges, lines[..|lines| - 1], num), lines[|lines| - 1], num)
  }

  // ---- reading back what was rendered ----

  predicate Plain(s: string) {
    ':' !in s && '|' !in s && '\n' !in s
  }

  lemma {:induction false} SplitAt(a: string, c: char, b: string)
    requires c !in a
    ensures Before(a + [c] + b, c) == a && After(a + [c] + b, c) == b
  {
    var s := a + [c] + b;
    if a == "" {
      assert s[1..] == b;
    } else {
      assert s[1..] == a[1..] + [c] + b;
      SplitAt(a[1..], c, b);
    }
  }

  lemma ParseRendered(l: Line)
    requires PlainLine(l)
    ensures ParseLine(l.name + ":" + l.value + "|g") == [l]
  {
    var rest := l.value + "|g";
    var s := l.name + ":" + rest;
    assert l.name + ":" + l.value + "|g" == s;
    SplitAt(l.name, ':', rest);
    assert rest == l.value + ['|'] + "g";
    SplitAt(l.value, '|', "g");
    assert s[|l.name|] == ':' && rest[|l.value|] == '|';
  }

  /** Parsing reads the first line, then the rest. */
  lemma ParseCons(first: string, rest: string)
    requires '\n' !in first
    ensures Parse(first + ['\n'] + rest) == ParseLine(first) + Parse(rest)
  {
    SplitAt(first, '\n', rest);
  }

  lemma ParseOne(l: Line)
    requires PlainLine(l)
    ensures Parse(Render(l)) == [l]
  {
    var line := l.name + ":" + l.value + "|g";
    assert Render(l) == line + ['\n'] + "";
    ParseCons(line, "");
    ParseRendered(l);
  }

  lemma ParseBehindLine(first: string, rest: string, tail: string, msg: string, all: string)
    requires '\n' !in first
    requires msg == first + ['\n'] + rest && all == first + ['\n'] + (rest + tail)
    requires Parse(rest + tail) == Parse(rest) + Parse(tail)
    ensures Parse(all) == Parse(msg) + Parse(tail)
  {
    ParseCons(first, rest);
    ParseCons(first, rest + tail);
    Regroup(ParseLine(first), Parse(rest), Parse(tail));
  }

  lemma Regroup<T>(a: seq<T>, b: seq<T>, c: seq<T>)
    ensures a + (b + c) == a + b + c
  {
  }

  /** Complete lines are read independently of what follows them. */
  lemma {:induction false} ParseConcat(msg: string, tail: string)
    requires msg == "" || msg[|msg| - 1] == '\n'
    ensures Parse(msg + tail) == Parse(msg) + Parse(tail)
    decreases |msg|
  {
    if msg == "" {
      assert msg + tail == tail;
    } else {
      CutLine(msg);
      ParseConcat(After(msg, '\n'), tail);
      Regroup(Before(msg, '\n') + ['\n'], After(msg, '\n'), tail);
      ParseBehindLine(Before(msg, '\n'), After(msg, '\n'), tail, msg, msg + tail);
    }
  }

  /** A text that ends in a newline is its first line, a newline and a text of the same kind. */
  lemma {:induction false} CutLine(msg: string)
    requires msg != "" && msg[|msg| - 1] == '\n'
    ensures '\n' !in Before(msg, '\n')
    ensures msg == Before(msg, '\n') + ['\n'] + After(msg, '\n')
    ensures After(msg, '\n') == "" || After(msg, '\n')[|After(msg, '\n')| - 1] == '\n'
  {
    if msg[0] != '\n' {
      CutLine(msg[1..]);
    }
  }

  lemma EndsInNewline(lines: seq<Line>)
    ensures RenderAll(lines) == "" || RenderAll(lines)[|RenderAll(lines)| - 1] == '\n'
  {
    if lines != [] {
      var last := Render(lines[|lines| - 1]);
      assert last[|last| - 1] == '\n';
    }
  }

  predicate PlainLine(l: Line) {
    Plain(l.name) && Plain(l.value)
  }

  lemma {:induction false} RoundTrip(lines: seq<Line>)
    requires forall i :: 0 <= i < |lines| ==> PlainLine(lines[i])
    ensures Parse(RenderAll(lines)) == lines
    decreases |lines|
  {
    if lines != [] {
      var n := |lines| - 1;
      RoundTrip(lines[..n]);
      EndsInNewline(lines[..n]);
      ParseConcat(RenderAll(lines[..n]), Render(lines[n]));
      ParseOne(lines[n]);
      SplitLast(lines);
    }
  }

  lemma SplitLast(lines: seq<Line>)
    requires lines != []
    ensures lines == lines[..|lines| - 1] + [lines[|lines| - 1]]
  {
  }

  // ---- the meaning ----

  /** The metrics with a value, each assigned to its gauge in order. */
  function Report(gauges: map<string, real>, prefix: string, metrics: seq<ResultMetric>, num: string -> real)
    : map<string, real>
  {
    if metrics == [] then gauges
    else
      var n := |metrics| - 1;
      var before := Report(gauges, prefix, metrics[..n], num);
      if metrics[n].value == "" then before else before[Name(prefix, metrics[n]) := num(metrics[n].value)]
  }

  predicate PlainMetrics(prefix: string, metrics: seq<ResultMetric>) {
    Plain(prefix) && forall i :: 0 <= i < |metrics| ==> Plain(metrics[i].name) && Plain(metrics[i].value)
  }

  predicate Sendable(prefix: string, metrics: seq<ResultMetric>) {
    && PlainMetrics(prefix, metrics)
    && forall i :: 0 <= i < |metrics| ==> metrics[i].value != "" ==> metrics[i].value[0] != '+'
  }

  lemma {:induction false} LinesPlain(prefix: string, metrics: seq<ResultMetric>)
    requires PlainMetrics(prefix, metrics)
    ensures forall i :: 0 <= i < |Lines(prefix, metrics)| ==> PlainLine(Lines(prefix, metrics)[i])
    decreases |metrics|
  {
    if metrics != [] {
      LinesPlain(prefix, metrics[..|metrics| - 1]);
    }
  }

  lemma {:induction false} ApplyConcat(gauges: map<string, real>, a: seq<Line>, b: seq<Line>, num: string -> real)
    ensures ApplyAll(gauges, a + b, num) == ApplyAll(ApplyAll(gauges, a, num), b, num)
    decreases |b|
  {
    if b == [] {
      assert a + b == a;
    } else {
      var n := |b| - 1;
      assert (a + b)[..|a| + n] == a + b[..n];
      ApplyConcat(gauges, a, b[..n], num);
    }
  }

  /** The lines of one metric assign its value to its gauge. */
  lemma LinesOfMean(gauges: map<string, real>, prefix: string, m: ResultMetric, num: string -> real)
    requires m.value != "" && m.value[0] != '+' && num("0") == 0.0
    ensures ApplyAll(gauges, LinesOf(prefix, m), num) == gauges[Name(prefix, m) := num(m.value)]
  {
    var name := Name(prefix, m);
    var one := [Line(name, m.value)];
    assert one[..0] == [];
    if m.value[0] == '-' {
      var two := [Line(name, "0"), Line(name, m.value)];
      var zero := gauges[name := 0.0];
      assert two[..1] == [Line(name, "0")] && two[..1][..0] == [];
      assert ApplyAll(gauges, two[..1], num) == zero;
      assert zero[name := num(m.value)] == gauges[name := num(m.value)];
      assert Gauge(zero, name) + num(m.value) == num(m.value);
    }
  }

  lemma {:induction false} LinesMean(
    gauges: map<string, real>, prefix: string, metrics: seq<ResultMetric>, num: string -> real)
    requires Sendable(prefix, metrics) && num("0") == 0.0
    ensures ApplyAll(gauges, Lines(prefix, metrics), num) == Report(gauges, prefix, metrics, num)
    decreases |metrics|
  {
    if metrics != [] {
      var n := |metrics| - 1;
      LinesMean(gauges, prefix, metrics[..n], num);
      ApplyConcat(gauges, Lines(prefix, metrics[..n]), LinesOf(prefix, metrics[n]), num);
      if metrics[n].value != "" {
        LinesOfMean(Report(gauges, prefix, metrics[..n], num), prefix, metrics[n], num);
      }
    }
  }

  /** The last value reported under a name. */
  function LastValue(prefix: string, metrics: seq<ResultMetric>, name: string): Option<string> {
    if metrics == [] then None
    else
      var m := metrics[|metrics| - 1];
      if m.value != "" && Name(prefix, m) == name then Some(m.value)
      else LastValue(prefix, metrics[..|metrics| - 1], name)
  }

  lemma {:induction false} ReportByName(
    gauges: map<string, real>, prefix: string, metrics: seq<ResultMetric>, num: string -> real, name: string)
    ensures var after, last := Report(gauges, prefix, metrics, num), LastValue(prefix, metrics, name);
            if last.Some? then name in after && after[name] == num(last.value)
            else (name in after <==> name in gauges) && (name in gauges ==> after[name] == gauges[name])
    decreases |metrics|
  {
    if metrics != [] {
      ReportByName(gauges, prefix, metrics[..|metrics| - 1], num, name);
    }
  }

  /** Whatever the gauges were, a StatsD server that reads the message leaves every reported name
      at its last value, negatives included, and every other gauge alone. */
  lemma MessageMeans(
    gauges: map<string, real>, metricPrefix: Option<string>, lower: string -> string,
    metrics: seq<ResultMetric>, num: string -> real, name: string)
    requires Sendable(Prefix(metricPrefix, lower), metrics) && num("0") == 0.0
    ensures var after := ApplyAll(gauges, Parse(Message(metricPrefix, lower, metrics)), num);
            && (forall k :: 0 <= k < |metrics| && LastOf(Prefix(metricPrefix, lower), metrics, k, name) ==>
                  name in after && after[name] == num(metrics[k].value))
            && ((forall k :: 0 <= k < |metrics| ==> !LastOf(Prefix(metricPrefix, lower), metrics, k, name)) ==>
                  (name in after <==> name in gauges) && (name in gauges ==> after[name] == gauges[name]))
  {
    var prefix := Prefix(metricPrefix, lower);
    ParsedMessage(metricPrefix, lower, metrics);
    LinesMean(gauges, prefix, metrics, num);
    ReportByName(gauges, prefix, metrics, num, name);
    LastValueMeans(prefix, metrics, name);
  }

  /** Metric k is the last one with a value whose prefix, dot and name make the gauge's name. */
  predicate LastOf(prefix: string, metrics: seq<ResultMetric>, k: nat, name: string)
    requires k < |metrics|
  {
    && metrics[k].value != "" && prefix + "." + metrics[k].name == name
    && forall j :: k < j < |metrics| ==> metrics[j].value == "" || prefix + "." + metrics[j].name != name
  }

  lemma {:induction false} LastValueMeans(prefix: string, metrics: seq<ResultMetric>, name: string)
    ensures forall k :: 0 <= k < |metrics| && LastOf(prefix, metrics, k, name) ==>
              LastValue(prefix, metrics, name) == Some(metrics[k].value)
    ensures LastValue(prefix, metrics, name).Some? ==>
              exists k :: 0 <= k < |metrics| && LastOf(prefix, metrics, k, name)
    decreases |metrics|
  {
    if metrics != [] {
      var n := |metrics| - 1;
      var front, m := metrics[..n], metrics[n];
      LastValueMeans(prefix, front, name);
      if m.value != "" && Name(prefix, m) == name {
        assert LastOf(prefix, metrics, n, name);
      } else {
        forall k | 0 <= k < n
          ensures LastOf(prefix, metrics, k, name) <==> LastOf(prefix, front, k, name)
        {
          LastOfFront(prefix, metrics, k, name);
        }
      }
    }
  }

  lemma LastOfFront(prefix: string, metrics: seq<ResultMetric>, k: nat, name: string)
    requires k < |metrics| - 1
    requires var m := metrics[|metrics| - 1]; m.value == "" || prefix + "." + m.name != name
    ensures LastOf(prefix, metrics, k, name) <==> LastOf(prefix, metrics[..|metrics| - 1], k, name)
  {
    var n := |metrics| - 1;
    assert forall j :: 0 <= j < n ==> metrics[..n][j] == metrics[j];
  }

  /** The text for one metric: nothing without a value, one line for a value, two for a negative one. */
  lemma MessageOfOne(metricPrefix: Option<string>, lower: string -> string, m: ResultMetric)
    ensures var p, msg := Prefix(metricPrefix, lower), Message(metricPrefix, lower, [m]);
            if m.value == "" then msg == ""
            else if m.value[0] != '-' then msg == p + "." + m.name + ":" + m.value + "|g\n"
            else msg == (p + "." + m.name + ":" + "0" + "|g\n") + (p + "." + m.name + ":" + m.value + "|g\n")
  {
    var p := Prefix(metricPrefix, lower);
    assert [m][..0] == [] && [m][..1] == [m];
    MessageNext(p, [m], 0);
    var zero, last := Render(Line(Name(p, m), "0")), Render(Line(Name(p, m), m.value));
    assert RenderAll(Lines(p, [m][..0])) == "";
    assert "" + last == last && "" + zero == zero;
  }

  /** A single value is reported right, whatever the gauge was, exactly unless it carries a plus
      sign: then it is added, which is right only for a gauge at zero. */
  lemma PlusSignAdds(gauges: map<string, real>, prefix: string, metric: ResultMetric, num: string -> real)
    requires metric.value != "" && num("0") == 0.0
    ensures var name := Name(prefix, metric);
            (Gauge(ApplyAll(gauges, LinesOf(prefix, metric), num), name) == num(metric.value)) <==>
            (metric.value[0] != '+' || Gauge(gauges, name) == 0.0)
  {
    if metric.value[0] != '+' {
      LinesOfMean(gauges, prefix, metric, num);
    } else {
      assert LinesOf(prefix, metric)[..0] == [];
    }
  }

  /** Metrics without a value or of other names leave a gauge alone. */
  lemma {:induction false} LaterMetricsLeave(
    gauges: map<string, real>, prefix: string, metrics: seq<ResultMetric>, num: string -> real, k: nat, name: string)
    requires k <= |metrics|
    requires forall j :: k <= j < |metrics| ==> metrics[j].value == "" || Name(prefix, metrics[j]) != name
    ensures Gauge(ApplyAll(gauges, Lines(prefix, metrics), num), name) ==
            Gauge(ApplyAll(gauges, Lines(prefix, metrics[..k]), num), name)
    decreases |metrics|
  {
    if k == |metrics| {
      assert metrics[..k] == metrics;
    } else {
      var front := metrics[..|metrics| - 1];
      assert front[..k] == metrics[..k];
      LaterMetricsLeave(gauges, prefix, front, num, k, name);
      LastMetricLeaves(gauges, prefix, metrics, num, name);
    }
  }

  lemma LastMetricLeaves(
    gauges: map<string, real>, prefix: string, metrics: seq<ResultMetric>, num: string -> real, name: string)
    requires metrics != []
    requires var m := metrics[|metrics| - 1]; m.value == "" || Name(prefix, m) != name
    ensures Gauge(ApplyAll(gauges, Lines(prefix, metrics), num), name) ==
            Gauge(ApplyAll(gauges, Lines(prefix, metrics[..|metrics| - 1]), num), name)
  {
    var front, m := metrics[..|metrics| - 1], metrics[|metrics| - 1];
    ApplyConcat(gauges, Lines(prefix, front), LinesOf(prefix, m), num);
    OtherMetricLeaves(ApplyAll(gauges, Lines(prefix, front), num), prefix, m, num, name);
  }

  lemma OtherMetricLeaves(
    gauges: map<string, real>, prefix: string, m: ResultMetric, num: string -> real, name: string)
    requires m.value == "" || Name(prefix, m) != name
    ensures Gauge(ApplyAll(gauges, LinesOf(prefix, m), num), name) == Gauge(gauges, name)
  {
    var lines := LinesOf(prefix, m);
    if |lines| == 2 {
      assert lines[..1] == [lines[0]] && [lines[0]][..0] == [];
      assert ApplyAll(gauges, lines[..1], num) == Apply(gauges, lines[0], num);
    } else if |lines| == 1 {
      assert lines[..0] == [];
    }
  }

  /** In a whole message the last value reported under a name arrives, whatever the gauges were and
      whatever came before, if and only if it has no plus sign or the gauge stood at zero after the
      metrics before it. */
  lemma PlusSignInMessage(
    gauges: map<string, real>, metricPrefix: Option<string>, lower: string -> string,
    metrics: seq<ResultMetric>, num: string -> real, k: nat)
    requires PlainMetrics(Prefix(metricPrefix, lower), metrics) && num("0") == 0.0
    requires k < |metrics| && metrics[k].value != ""
    requires forall j :: k < j < |metrics| ==> metrics[j].value == "" || metrics[j].name != metrics[k].name
    ensures var name := Prefix(metricPrefix, lower) + "." + metrics[k].name;
            var before := ApplyAll(gauges, Parse(Message(metricPrefix, lower, metrics[..k])), num);
            var after := ApplyAll(gauges, Parse(Message(metricPrefix, lower, metrics)), num);
            Gauge(after, name) == num(metrics[k].value) <==>
            metrics[k].value[0] != '+' || Gauge(before, name) == 0.0
  {
    var prefix := Prefix(metricPrefix, lower);
    ParsedMessage(metricPrefix, lower, metrics);
    ParsedMessage(metricPrefix, lower, metrics[..k]);
    forall j | k < j < |metrics|
      ensures metrics[j].value == "" || Name(prefix, metrics[j]) != Name(prefix, metrics[k])
    {
      OtherName(prefix, metrics[j], metrics[k]);
    }
    LaterMetricsLeave(gauges, prefix, metrics, num, k + 1, Name(prefix, metrics[k]));
    LinesNext(prefix, metrics, k);
    ApplyConcat(gauges, Lines(prefix, metrics[..k]), LinesOf(prefix, metrics[k]), num);
    PlusSignAdds(ApplyAll(gauges, Lines(prefix, metrics[..k]), num), prefix, metrics[k], num);
  }

  lemma ParsedMessage(metricPrefix: Option<string>, lower: string -> string, metrics: seq<ResultMetric>)
    requires PlainMetrics(Prefix(metricPrefix, lower), metrics)
    ensures Parse(Message(metricPrefix, lower, metrics)) == Lines(Prefix(metricPrefix, lower), metrics)
  {
    LinesPlain(Prefix(metricPrefix, lower), metrics);
    RoundTrip(Lines(Prefix(metricPrefix, lower), metrics));
  }

  /** Metrics of different names report under different names. */
  lemma OtherName(prefix: string, a: ResultMetric, b: ResultMetric)
    ensures Name(prefix, a) == Name(prefix, b) <==> a.name == b.name
  {
    assert Name(prefix, a)[|prefix| + 1..] == a.name;
    assert Name(prefix, b)[|prefix| + 1..] == b.name;
  }

  // ---- writing ----

  /** A datagram whose write fails is not sent, not even in part. */
  datatype WriteResult = Wrote(n: nat) | WriteError(err: Error)

  function Write(conn: (nat, string) -> WriteResult, k: nat, data: string): WriteResult {
    conn(k, data)
  }

  /** io.Writer: a write without error has written something, and no more than it was given. */
  ghost predicate IsWriter(conn: (nat, string) -> WriteResult) {
    forall k, data :: data != "" && Write(conn, k, data).Wrote? ==> 1 <= Write(conn, k, data).n <= |data|
  }

  /** How much of data the connection accepts, when the next write is the k-th. */
  ghost function SentCount(conn: (nat, string) -> WriteResult, k: nat, data: string): (n: nat)
    requires IsWriter(conn)
    ensures n <= |data|
    decreases |data|
  {
    if data == "" || Write(conn, k, data).WriteError? then 0
    else Write(conn, k, data).n + SentCount(conn, k + 1, data[Write(conn, k, data).n..])
  }

  ghost function SentBytes(conn: (nat, string) -> WriteResult, data: string): string
    requires IsWriter(conn)
  {
    data[..SentCount(conn, 0, data)]
  }

  /** The error of the first write that fails, None when all of data is accepted. */
  ghost function FirstFailure(conn: (nat, string) -> WriteResult, k: nat, data: string): Option<Error>
    requires IsWriter(conn)
    decreases |data|
  {
    if data == "" then None
    else
      match Write(conn, k, data)
      case WriteError(err) => Some(err)
      case Wrote(n) => FirstFailure(conn, k + 1, data[n..])
  }

  ghost predicate Delivered(conn: (nat, string) -> WriteResult, k: nat, data: string)
    requires IsWriter(conn)
  {
    FirstFailure(conn, k, data).None?
  }

  /** How many writes succeed before the first that fails. */
  ghost function Accepted(conn: (nat, string) -> WriteResult, k: nat, data: string): nat
    requires IsWriter(conn)
    decreases |data|
  {
    if data == "" || Write(conn, k, data).WriteError? then 0
    else 1 + Accepted(conn, k + 1, data[Write(conn, k, data).n..])
  }

  /** All of data is accepted if and only if no write fails.  The write that fails comes after the
      accepted ones and was given exactly what they had left. */
  lemma {:induction false} SentUpToFailure(conn: (nat, string) -> WriteResult, k: nat, data: string)
    requires IsWriter(conn)
    ensures SentCount(conn, k, data) == |data| <==> Delivered(conn, k, data)
    ensures !Delivered(conn, k, data) ==>
              Write(conn, k + Accepted(conn, k, data), data[SentCount(conn, k, data)..])
              == WriteError(FirstFailure(conn, k, data).value)
    decreases |data|
  {
    if data != "" && Write(conn, k, data).Wrote? {
      var n := Write(conn, k, data).n;
      SentUpToFailure(conn, k + 1, data[n..]);
      DropTwice(data, n, SentCount(conn, k + 1, data[n..]));
    } else {
      assert data[0..] == data;
    }
  }

  lemma DropTwice(s: string, i: nat, j: nat)
    requires i + j <= |s|
    ensures s[i..][j..] == s[i + j..]
  {
  }

  lemma WriteOn(conn: (nat, string) -> WriteResult, k: nat, msg: string, written: nat)
    requires IsWriter(conn) && written < |msg| && Write(conn, k, msg[written..]).Wrote?
    ensures var n := Write(conn, k, msg[written..]).n;
            && 1 <= n <= |msg| - written
            && SentCount(conn, k, msg[written..]) == n + SentCount(conn, k + 1, msg[written + n..])
            && FirstFailure(conn, k, msg[written..]) == FirstFailure(conn, k + 1, msg[written + n..])
  {
    DropTwice(msg, written, Write(conn, k, msg[written..]).n);
  }

  /** The write loop. */
  method Send(msg: string, conn: (nat, string) -> WriteResult) returns (sent: string, err: Option<Error>)
    requires IsWriter(conn)
    ensures sent == SentBytes(conn, msg)
    ensures err == FirstFailure(conn, 0, msg)
    ensures err.None? <==> sent == msg
  {
    var written := 0;
    var k := 0;
    assert msg[0..] == msg;
    SentUpToFailure(conn, 0, msg);
    while written < |msg|
      invariant written <= |msg|
      invariant SentCount(conn, 0, msg) == written + SentCount(conn, k, msg[written..])
      invariant FirstFailure(conn, 0, msg) == FirstFailure(conn, k, msg[written..])
      decreases |msg| - written
    {
      var r := Write(conn, k, msg[written..]);
      if r.WriteError? {
        return msg[..written], Some(r.err);
      }
      WriteOn(conn, k, msg, written);
      written := written + r.n;
      k := k + 1;
    }
    return msg, None;
  }

  /** Process: each step may fail; the deferred Close overwrites the error of everything that
      happens after dialling.  So after dialling Process has reported an error or sent the whole
      message if and only if Close fails, or there was nothing to send, or the deadline was set and
      no write failed. */
  method Process(
    metricPrefix: Option<string>, lower: string -> string, metrics: Option<seq<ResultMetric>>,
    dialErr: Option<Error>, deadlineErr: Option<Error>, conn: (nat, string) -> WriteResult, closeErr: Option<Error>)
    returns (err: Option<Error>, sent: string)
    requires IsWriter(conn)
    ensures metrics.None? ==> err == None && sent == ""
    ensures metrics.Some? && dialErr.Some? ==> err == dialErr && sent == ""
    ensures metrics.Some? && dialErr.None? ==>
              var msg := Message(metricPrefix, lower, metrics.value);
              && err == closeErr
              && sent == (if deadlineErr.Some? then "" else SentBytes(conn, msg))
              && (err.Some? || sent == msg <==>
                  closeErr.Some? || msg == "" || (deadlineErr.None? && Delivered(conn, 0, msg)))
  {
    if metrics.None? {
      return None, "";
    }
    if dialErr.Some? {
      return dialErr, "";
    }
    if deadlineErr.Some? {
      return closeErr, "";
    }
    var msg := BuildProtocolMessage(metricPrefix, lower, metrics.value);
    SentUpToFailure(conn, 0, msg);
    sent, err := Send(msg, conn);
    err := closeErr;
  }

  /** The failure is real: whatever there is to send, if the first write fails and Close does not,
      nothing is sent and Process reports success. */
  method FailedWriteGoesUnreported(
    metricPrefix: Option<string>, lower: string -> string, metrics: seq<ResultMetric>, writeErr: Error)
    returns (err: Option<Error>, sent: string)
    requires Message(metricPrefix, lower, metrics) != ""
    ensures err == None && sent == "" && sent != Message(metricPrefix, lower, metrics)
  {
    var conn := (k: nat, data: string) => WriteError(writeErr);
    err, sent := Process(metricPrefix, lower, Some(metrics), None, None, conn, None);
  }

  /** There is something to send if and only if some metric has a value. */
  lemma EmptyMessage(metricPrefix: Option<string>, lower: string -> string, metrics: seq<ResultMetric>)
    ensures Message(metricPrefix, lower, metrics) == "" <==> forall i :: 0 <= i < |metrics| ==> metrics[i].value == ""
  {
    NoLines(Prefix(metricPrefix, lower), metrics);
    var lines := Lines(Prefix(metricPrefix, lower), metrics);
    if lines != [] {
      assert Render(lines[|lines| - 1]) != "";
    }
  }

  lemma {:induction false} NoLines(prefix: string, metrics: seq<ResultMetric>)
    ensures Lines(prefix, metrics) == [] <==> forall i :: 0 <= i < |metrics| ==> metrics[i].value == ""
    decreases |metrics|
  {
    if metrics != [] {
      var n := |metrics| - 1;
      NoLines(prefix, metrics[..n]);
      NoLinesOf(prefix, metrics[n]);
      assert forall i :: 0 <= i < n ==> metrics[..n][i] == metrics[i];
    }
  }

  lemma NoLinesOf(prefix: string, m: ResultMetric)
    ensures LinesOf(prefix, m) == [] <==> m.value == ""
  {
  }
}
