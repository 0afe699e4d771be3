/**
 The writer object: its methods insert and update rows one statement after the other inside a
 transaction, and each is proved to be exactly one step of the store.
 */
module TelemetryWriters {
  import opened Results
  import opened RunModels
  import opened Timestamps
  import T = TelemetryStore
  import opened TelemetryStore
  import opened TelemetryInvariant

  /** The identity status that an observation deserves. */
  function Verdict(i: Invocation, provider: string, model: string): Identity {
    if provider == i.provider && model == i.model then Matched else Mismatch
  }

  /** What a call did: accepted or not as the step says, with the step's tables or none of its writes. */
  predicate Performs(before: Db, after: Db, r: Request, accepted: bool) {
    accepted == Step(before, r).Some? && after == Apply(before, r)
  }

  class TelemetryWriter {
    var runs: map<string, RunRow>
    var events: seq<EventRow>
    var invocations: map<string, Invocation>
    var usage: seq<UsageRow>
    var projections: seq<Projection>

    function Tables(): Db
      reads this
    {
      Db(runs, events, invocations, usage, projections)
    }

    constructor ()
      ensures Tables() == EMPTY
    {
      runs, events, invocations, usage, projections := map[], [], map[], [], [];
    }

    method AppendEvent(runId: string, eventType: EventType, at: int, stage: RunStage) returns (sequence: nat)
      requires runId in runs
      modifies this
      ensures Tables() == T.AppendEvent(old(Tables()), runId, eventType, at, stage)
      ensures sequence == old(runs[runId].lastSequence) + 1 && runId in runs && runs[runId].lastSequence == sequence
    {
      sequence := runs[runId].lastSequence + 1;
      events := events + [EventRow(runId, sequence, at, eventType, stage)];
      runs := runs[runId := runs[runId].(lastSequence := sequence)];
    }

    /** The update of a run that is not terminal, and its event. */
    method UpdateRun(runId: string, row: RunRow, eventType: EventType, at: int, stage: RunStage) returns (sequence: nat)
      requires runId in runs && !runs[runId].terminal
      modifies this
      ensures Updated(old(Tables()), runId, row, eventType, at, stage) == Some(Tables())
      ensures runId in runs && runs[runId].lastSequence == sequence
    {
      runs := runs[runId := row];
      sequence := AppendEvent(runId, eventType, at, stage);
    }

    /** The new last number of the run, or nothing when the call raises; likewise below. */
    method StartRun(runId: string, kind: RunKind, stage: RunStage, repository: Option<string>, issue: Option<int>,
                    score: Option<int>, window: Option<string>, at: int) returns (r: Option<nat>)
      modifies this
      ensures Performs(old(Tables()), Tables(),
                       Request.StartRun(runId, kind, stage, repository, issue, score, window, at), r.Some?)
      ensures r.Some? ==> runId in runs && r.value == runs[runId].lastSequence
    {
      ghost var q := Request.StartRun(runId, kind, stage, repository, issue, score, window, at);
      assert Step(Tables(), q) == StartedRun(Tables(), q);
      hide Step, T.AppendEvent;
      if (issue.Some? && issue.value < 1) || (score.Some? && !(0 <= score.value <= 100)) {
        return None;
      }
      if runId in runs {
        var e := runs[runId];
        if (e.kind, e.stage, e.repository, e.issue, e.score, e.window)
            != (kind, stage, repository, issue, score, window) {
          return None;
        }
        return Some(e.lastSequence);
      }
      runs := runs[runId := RunRow(kind, stage, false, repository, issue, score, None,
                                   None, None, window, NotStarted, 0)];
      var n := AppendEvent(runId, RunStarted, at, stage);
      r := Some(n);
    }

    method RecordEvent(runId: string, eventType: EventType, stage: Option<RunStage>, at: int) returns (r: Option<nat>)
      modifies this
      ensures Performs(old(Tables()), Tables(), Request.RecordEvent(runId, eventType, stage, at), r.Some?)
      ensures r.Some? ==> runId in runs && r.value == runs[runId].lastSequence
    {
      if runId !in runs || runs[runId].terminal {
        return None;
      }
      var n := AppendEvent(runId, eventType, at, if stage.Some? then stage.value else runs[runId].stage);
      assert old(runs)[runId := old(runs[runId])] == old(runs);
      r := Some(n);
    }

    method TransitionRun(runId: string, stage: RunStage, at: int) returns (r: Option<nat>)
      modifies this
      ensures Performs(old(Tables()), Tables(), Request.TransitionRun(runId, stage, at), r.Some?)
      ensures r.Some? ==> runId in runs && r.value == runs[runId].lastSequence
    {
      if TerminalStage(stage) || runId !in runs || runs[runId].terminal {
        return None;
      }
      var n := UpdateRun(runId, runs[runId].(stage := stage), State, at, stage);
      r := Some(n);
    }

    method SetRunTarget(runId: string, slug: string, number: int, points: int, at: int) returns (r: Option<nat>)
      modifies this
      ensures Performs(old(Tables()), Tables(), SetTarget(runId, slug, number, points, at), r.Some?)
      ensures r.Some? ==> runId in runs && r.value == runs[runId].lastSequence
    {
      if number < 1 || !(0 <= points <= 100) || runId !in runs || runs[runId].terminal {
        return None;
      }
      var run := runs[runId];
      if (run.repository.Some? && run.repository.value != slug) || (run.issue.Some? && run.issue.value != number)
         || (run.score.Some? && run.score.value != points) {
        return None;
      }
      if (run.repository.Some? || run.issue.Some? || run.score.Some?)
         && !(run.repository.Some? && run.issue.Some? && run.score.Some?) {
        return None;
      }
      var row := run.(repository := Some(slug), issue := Some(number), score := Some(points));
      var n := UpdateRun(runId, row, CandidateSelected, at, run.stage);
      r := Some(n);
    }

    method SetCleanupStatus(runId: string, cleanup: CleanupStatus, at: int) returns (r: Option<nat>)
      modifies this
      ensures Performs(old(Tables()), Tables(), SetCleanup(runId, cleanup, at), r.Some?)
      ensures r.Some? ==> runId in runs && r.value == runs[runId].lastSequence
    {
      if runId !in runs || runs[runId].terminal {
        return None;
      }
      var n := UpdateRun(runId, runs[runId].(cleanup := cleanup), CleanupEvent, at, runs[runId].stage);
      r := Some(n);
    }

    method FinishRun(runId: string, stage: RunStage, failureCode: Option<string>, statusCode: Option<string>,
                     prUrl: Option<string>, cleanup: Option<CleanupStatus>, at: int) returns (r: Option<nat>)
      modifies this
      ensures Performs(old(Tables()), Tables(),
                       Request.FinishRun(runId, stage, failureCode, statusCode, prUrl, cleanup, at), r.Some?)
      ensures r.Some? ==> runId in runs && r.value == runs[runId].lastSequence
    {
      ghost var q := Request.FinishRun(runId, stage, failureCode, statusCode, prUrl, cleanup, at);
      assert Step(Tables(), q) == FinishedRun(Tables(), q);
      hide Step, T.AppendEvent, SameOutcome, TerminalStage;
      if !TerminalStage(stage) || runId !in runs {
        return None;
      }
      var run := runs[runId];
      var finalCleanup := match cleanup case Some(c) => c case None => run.cleanup;
      if run.terminal {
        if !SameOutcome(run, stage, failureCode, statusCode, prUrl, finalCleanup) {
          return None;
        }
        return Some(run.lastSequence);
      }
      var row := run.(stage := stage, terminal := true, failureCode := failureCode, statusCode := statusCode,
                      prUrl := prUrl, cleanup := finalCleanup);
      assert FinishedRun(Tables(), q) == Updated(Tables(), runId, row, RunFinished, at, stage);
      hide FinishedRun, Updated;
      var n := UpdateRun(runId, row, RunFinished, at, stage);
      r := Some(n);
    }

    /** The writes before a raise are rolled back with the rest of the transaction. */
    method RecordBudgetProjection(p: Projection) returns (accepted: bool)
      modifies this
      ensures Performs(old(Tables()), Tables(), RecordProjection(p), accepted)
    {
      if !ValidProjection(p) {
        return false;
      }
      var begun := runs;
      var existing := FindProjection(projections, p.id);
      if existing.Some? {
        return existing.value.(at := p.at) == p;
      }
      if p.runId.Some? {
        if p.runId.value !in runs {
          return false;
        }
        var run := runs[p.runId.value];
        if run.kind != p.kind || (run.window.Some? && run.window.value != p.window) {
          return false;
        }
        if run.window.None? {
          runs := runs[p.runId.value := run.(window := Some(p.window))];
        }
      }
      if p.reservationId.Some? {
        var history := History(projections, p.reservationId.value);
        if (history == [] && !p.state.Reserved?)
           || (history != [] && (!history[|history| - 1].Reserved? || p.state !in {Released, Committed})) {
          runs := begun;
          return false;
        }
      }
      projections := projections + [p];
      if p.runId.Some? {
        assert p.runId.value in begun
            && runs == begun[p.runId.value := begun[p.runId.value].(window := Some(p.window))];
        var _ := AppendEvent(p.runId.value, if p.state.Snapshot? then BudgetObserved else BudgetReserved, p.at,
                             runs[p.runId.value].stage);
      }
      accepted := true;
    }

    method StartModelInvocation(invocationId: string, runId: string, stage: ModelStage, attempt: int, backend: Backend,
                                provider: string, model: string, cap: Option<int>, at: int) returns (accepted: bool)
      modifies this
      ensures Performs(old(Tables()), Tables(),
                       StartModel(invocationId, runId, stage, attempt, backend, provider, model, cap, at), accepted)
    {
      if !(0 <= attempt <= 100) || !OptionalCount(cap) || runId !in runs || runs[runId].terminal
         || (backend.TrainingBackend? && !runs[runId].kind.Training?) {
        return false;
      }
      if invocationId in invocations {
        var e := invocations[invocationId];
        return (e.runId, e.stage, e.attempt, e.backend, e.provider, e.model, e.cap)
            == (runId, stage, attempt, backend, provider, model, cap);
      }
      if exists i :: i in invocations && (invocations[i].runId, invocations[i].stage, invocations[i].attempt)
                                          == (runId, stage, attempt) {
        return false;
      }
      invocations := invocations[invocationId := Invocation(runId, stage, attempt, backend, provider, model, cap,
                                                            Unknown, None,
                                                            Starting, None, None, None, None, UsagePending)];
      var _ := AppendEvent(runId, ModelStarted, at, runs[runId].stage);
      accepted := true;
    }

    method RecordModelCheckin(id: string, provider: string, model: string, source: IdentitySource, at: int)
      returns (r: Option<Identity>)
      modifies this
      ensures Performs(old(Tables()), Tables(), CheckIn(id, provider, model, source, at), r.Some?)
      ensures r.Some? ==> id in invocations && r.value == Verdict(invocations[id], provider, model)
      ensures r.Some? && old(id in invocations && Judged(invocations[id])) ==> r.value == invocations[id].identity
    {
      if id !in invocations || TerminalModel(invocations[id].state) || invocations[id].runId !in runs {
        return None;
      }
      var i := invocations[id];
      if source.SyntheticIdentity? && !runs[i.runId].kind.Training? {
        return None;
      }
      var identity := if provider == i.provider && model == i.model then Matched else Mismatch;
      if i.observed.Some? {
        return if i.observed.value == (provider, model, source) then Some(identity) else None;
      }
      invocations := invocations[id := i.(observed := Some((provider, model, source)),
                                          identity := identity, state := Running)];
      var _ := AppendEvent(i.runId, ModelCheckin, at, runs[i.runId].stage);
      r := Some(identity);
    }

    /** Whether an event was emitted, or nothing when the call raises. */
    method HeartbeatModel(id: string, source: BeatSource, at: int) returns (r: Option<bool>)
      modifies this
      ensures Performs(old(Tables()), Tables(), Heartbeat(id, source, at), r.Some?)
      ensures r.Some? ==> (r.value <==> |events| == old(|events|) + 1)
    {
      if id !in invocations || TerminalModel(invocations[id].state) || invocations[id].runId !in runs {
        return None;
      }
      var i := invocations[id];
      var previous := if source.ControllerBeat? then i.controllerBeat else i.adapterBeat;
      if previous.Some? && at < previous.value {
        return None;
      }
      if previous == Some(at) {
        return Some(false);
      }
      if source.ControllerBeat? {
        invocations := invocations[id := i.(controllerBeat := Some(at), state := Running)];
      } else {
        invocations := invocations[id := i.(adapterBeat := Some(at), state := Running)];
      }
      var emit := previous.None? || at - previous.value >= 60 * SECOND;
      if emit {
        var _ := AppendEvent(i.runId, ModelHeartbeat, at, runs[i.runId].stage);
      }
      r := Some(emit);
    }

    /** `_refresh_usage_status`: three flags over the receipts of the invocation. */
    method RefreshUsageStatus(id: string) returns (status: UsageStatus)
      requires id in invocations
      modifies this
      ensures status == RefreshedStatus(usage, id)
      ensures Tables()
          == old(Tables()).(invocations := old(invocations)[id := old(invocations[id]).(usageStatus := status)])
    {
      var exactFinal, estimatedFinal, unfinished := false, false, false;
      var k := 0;
      while k < |usage|
        invariant 0 <= k <= |usage| && Tables() == old(Tables())
        invariant exactFinal == HasRow(usage[..k], id, true, true)
        invariant estimatedFinal == HasRow(usage[..k], id, false, true)
        invariant unfinished == (HasRow(usage[..k], id, true, false) || HasRow(usage[..k], id, false, false))
      {
        HasRowStep(usage, k, id, true, true);
        HasRowStep(usage, k, id, false, true);
        HasRowStep(usage, k, id, true, false);
        HasRowStep(usage, k, id, false, false);
        if usage[k].invocationId == id {
          if !usage[k].final {
            unfinished := true;
          } else if usage[k].exact {
            exactFinal := true;
          } else {
            estimatedFinal := true;
          }
        }
        k := k + 1;
      }
      assert usage[..k] == usage;
      if !exactFinal && !estimatedFinal && !unfinished {
        status := UsagePending;
      } else if exactFinal && !estimatedFinal && !unfinished {
        status := Exact;
      } else if estimatedFinal && !exactFinal && !unfinished {
        status := Estimated;
      } else {
        status := Partial;
      }
      invocations := invocations[id := invocations[id].(usageStatus := status)];
    }

    method RecordModelUsage(u: UsageRow, at: int) returns (r: Option<UsageStatus>)
      modifies this
      ensures Performs(old(Tables()), Tables(), RecordUsage(u, at), r.Some?)
      ensures r.Some? ==> u.invocationId in invocations && r.value == invocations[u.invocationId].usageStatus
    {
      if !ValidUsage(u) || u.invocationId !in invocations || TerminalModel(invocations[u.invocationId].state)
         || invocations[u.invocationId].runId !in runs {
        return None;
      }
      var i := invocations[u.invocationId];
      if u.source.SyntheticUsage? && !runs[i.runId].kind.Training? {
        return None;
      }
      var existing := FindUsage(usage, u.invocationId, u.requestKey);
      if existing.Some? {
        return if existing.value == u then Some(i.usageStatus) else None;
      }
      usage := usage + [u];
      var status := RefreshUsageStatus(u.invocationId);
      var _ := AppendEvent(i.runId, ModelUsage, at, runs[i.runId].stage);
      r := Some(status);
    }

    method FinishModelInvocation(id: string, state: ModelState, exitCode: Option<int>,
                                 failureCode: Option<string>, at: int)
      returns (r: Option<UsageStatus>)
      modifies this
      ensures Performs(old(Tables()), Tables(), FinishModel(id, state, exitCode, failureCode, at), r.Some?)
      ensures r.Some? ==> id in invocations && r.value == invocations[id].usageStatus
    {
      if !TerminalModel(state) || (exitCode.Some? && !(-255 <= exitCode.value <= 255)) || id !in invocations {
        return None;
      }
      var i := invocations[id];
      if TerminalModel(i.state) {
        var same := (i.state, i.exitCode, i.failureCode) == (state, exitCode, failureCode);
        return if same then Some(i.usageStatus) else None;
      }
      if (state.Succeeded? && i.identity.Mismatch?) || i.runId !in runs {
        return None;
      }
      var status := if i.usageStatus.UsagePending? then Unavailable else i.usageStatus;
      invocations := invocations[id := i.(state := state, exitCode := exitCode,
                                          failureCode := failureCode, usageStatus := status)];
      var _ := AppendEvent(i.runId, ModelFinished, at, runs[i.runId].stage);
      r := Some(status);
    }
  }

  lemma HasRowStep(us: seq<UsageRow>, k: nat, id: string, exact: bool, final: bool)
    requires k < |us|
    ensures HasRow(us[..k + 1], id, exact, final)
       <==> HasRow(us[..k], id, exact, final) || (us[k].invocationId, us[k].exact, us[k].final) == (id, exact, final)
  {
    assert us[..k + 1] == us[..k] + [us[k]];
    if HasRow(us[..k], id, exact, final) {
      var j :| 0 <= j < k && us[..k][j].invocationId == id && us[..k][j].exact == exact && us[..k][j].final == final;
      assert us[..k + 1][j] == us[..k][j];
    }
    if (us[k].invocationId, us[k].exact, us[k].final) == (id, exact, final) {
      assert us[..k + 1][k] == us[k];
    }
  }
}
