/** Check, Incident and Execute (check/check.go, check/incident.go). */
module Checks {
  import opened Wrappers
  import opened Clock
  import opened Results
  import HandlerFanout

  /** The one schedule the repository ships: due every intervalSeconds seconds. */
  datatype PeriodicSchedule = PeriodicSchedule(intervalSeconds: int)

  /** What Command.Run returns. */
  datatype Outcome = Outcome(result: Result, err: Option<Error>)

  class Incident {
    var fromState: ResultState
    var toState: ResultState
    var reasonCode: string
    var time: Time
    var resolved: Option<Time>
    var acknowledged: Option<Time>

    /** MakeIncidentFromResults: a missing last result counts as UNKNOWN. */
    constructor FromResults(last: Option<Result>, current: Result, now: Time)
      ensures fromState == (if last.Some? then last.value.state else StateUnknown)
      ensures toState == current.state && reasonCode == current.reasonCode && time == now
      ensures resolved == None && acknowledged == None
    {
      fromState := if last.Some? then last.value.state else MakeUnknownResult("", now).state;
      toState := current.state;
      reasonCode := current.reasonCode;
      time := now;
      resolved := None;
      acknowledged := None;
    }

    method Resolve(now: Time)
      modifies this`resolved
      ensures resolved == Some(now)
    {
      resolved := Some(now);
    }
  }

  /** Result.justifiesNewIncidentForCheck on what it reads of the check: the suppression flag,
      the attached incident's to-state and the last result's state. */
  predicate Justifies(
    suppressed: bool,
    incidentTo: Option<ResultState>,
    last: Option<ResultState>,
    current: ResultState)
  {
    if suppressed then false
    else if current == StateOk then false
    else if incidentTo.Some? then incidentTo.value != current
    else if last.Some? then last.value != current
    else true
  }

  class Check {
    const id: string
    var schedule: PeriodicSchedule
    var incident: Incident?
    var suppressIncidents: bool
    var lastCheck: Option<Time>
    var lastResult: Option<Result>
    var executed: bool

    constructor (id: string, schedule: PeriodicSchedule)
      ensures this.id == id && this.schedule == schedule
      ensures incident == null && !suppressIncidents && lastCheck == None && lastResult == None && !executed
    {
      this.id := id;
      this.schedule := schedule;
      incident := null;
      suppressIncidents := false;
      lastCheck := None;
      lastResult := None;
      executed := false;
    }

    /** PeriodicSchedule.DueAt: at once when the check never ran. */
    function DueAt(now: Time): Time
      reads this
    {
      if lastCheck.None? then now else lastCheck.value + schedule.intervalSeconds * SECOND
    }

    predicate IsDue(now: Time)
      reads this
    {
      DueAt(now) <= now
    }

    /** A check that never ran is due at every instant; one that did is due from the end of its
        interval on. */
    lemma DueIff(now: Time)
      ensures lastCheck.None? ==> IsDue(now)
      ensures lastCheck.Some? ==>
                (IsDue(now) <==> lastCheck.value + schedule.intervalSeconds * 1_000_000_000 <= now)
    {
    }

    /** The attached incident, as a frame. */
    ghost function Attached(): set<Incident>
      reads this
    {
      if incident == null then {} else {incident}
    }

    function IncidentTo(): Option<ResultState>
      reads this, incident
    {
      if incident == null then None else Some(incident.toState)
    }

    function LastState(): Option<ResultState>
      reads this
    {
      if lastResult.None? then None else Some(lastResult.value.state)
    }

    predicate JustifiesNewIncident(current: ResultState)
      reads this, incident
    {
      Justifies(suppressIncidents, IncidentTo(), LastState(), current)
    }

    /** A new incident for a result that is not OK, unless suppressed, when the attached incident is
        about another state or, with none attached, the last result was of another state or there
        was none. */
    method MakeNewIncidentIfJustified(result: Result, now: Time) returns (created: Incident?)
      ensures created != null <==>
                && !suppressIncidents && result.state != StateOk
                && (incident != null ==> incident.toState != result.state)
                && (incident == null && lastResult.Some? ==> lastResult.value.state != result.state)
      ensures created != null ==>
                && fresh(created)
                && created.fromState == (if lastResult.Some? then lastResult.value.state else StateUnknown)
                && created.toState == result.state && created.reasonCode == result.reasonCode
                && created.time == now && created.resolved == None && created.acknowledged == None
    {
      if !JustifiesNewIncident(result.state) {
        return null;
      }
      created := new Incident.FromResults(lastResult, result, now);
    }

    /** The attached incident is touched only on an OK result or a new incident: resolved if it
        was open, detached if it had been resolved before. */
    method ResolveOrDiscardPreviousIncident(result: Result, created: Incident?, now: Time)
      modifies this`incident, Attached()`resolved
      ensures var touched := old(incident) != null && (result.state == StateOk || created != null);
              && (incident == if touched && old(incident.resolved).Some? then null else old(incident))
              && (old(incident) != null ==>
                    old(incident).resolved ==
                      if touched && old(incident.resolved).None? then Some(now) else old(incident.resolved))
    {
      if incident != null && (result.state == StateOk || created != null) {
        if incident.resolved.None? {
          incident.Resolve(now);
        } else {
          incident := null;
        }
      }
    }

    /** Execute.  command is what Command.Run yields, None when the check has no command;
        handling is a complete run of the handler fan-out; tIncident, tResolve and tDone are the
        readings of the clock.  Handlers' mutations are not part of this model. */
    method Execute(
      command: Option<Outcome>, handling: HandlerFanout.Handling, tIncident: Time, tResolve: Time, tDone: Time)
      returns (created: Incident?, errors: seq<Error>)
      requires HandlerFanout.Complete(handling)
      modifies this, Attached()`resolved
      ensures executed && lastCheck == Some(tDone) && lastResult.Some?
      ensures command.Some? ==> lastResult.value == command.value.result
      ensures command.None? ==> lastResult.value == Result(StateUnknown, "CMD_FAILURE", [], tIncident)
      ensures schedule == old(schedule) && suppressIncidents == old(suppressIncidents)
      ensures var state := lastResult.value.state;
              created != null <==>
                old(!suppressIncidents
                    && state != StateOk
                    && (incident != null ==> incident.toState != state)
                    && (incident == null && lastResult.Some? ==> lastResult.value.state != state))
      ensures var state := lastResult.value.state; created != null <==> old(JustifiesNewIncident(state))
      ensures created != null ==>
                && fresh(created) && incident == created
                && created.fromState == (if old(lastResult).Some? then old(lastResult.value.state) else StateUnknown)
                && created.toState == lastResult.value.state && created.reasonCode == lastResult.value.reasonCode
                && created.time == tIncident && created.resolved == None
      ensures created == null ==>
                incident ==
                  if old(incident) != null && lastResult.value.state == StateOk && old(incident.resolved).Some?
                  then null else old(incident)
      ensures old(incident) != null ==>
                old(incident).resolved ==
                  if (lastResult.value.state == StateOk || created != null) && old(incident.resolved).None?
                  then Some(tResolve) else old(incident.resolved)
      ensures var own := if command.None? then ["command not defined in check"]
                         else if command.value.err.Some? then [command.value.err.value] else [];
              && errors == own + HandlerFanout.Collected(handling)
              && multiset(errors) == multiset(own) + multiset(HandlerFanout.Failures(handling.outcome))
    {
      executed := true;
      var result: Result;
      var err: Option<Error>;
      if command.None? {
        result, err := MakeUnknownResult("CMD_FAILURE", tIncident), Some("command not defined in check");
      } else {
        result, err := command.value.result, command.value.err;
      }
      created := MakeNewIncidentIfJustified(result, tIncident);
      ResolveOrDiscardPreviousIncident(result, created, tResolve);
      HandlerFanout.CollectedAreFailures(handling);
      errors := (if err.Some? then [err.value] else []) + HandlerFanout.Collected(handling);
      lastCheck := Some(tDone);
      lastResult := Some(result);
      if created != null {
        incident := created;
      }
    }
  }
}
