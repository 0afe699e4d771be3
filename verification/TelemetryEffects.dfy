/**
 What each accepted writer call stores, field by field, what it leaves alone, and when a call is
 rejected; and the stage of a run as its whole history gives it.
 */
module TelemetryEffects {
  import opened Results
  import opened RunModels
  import opened Timestamps
  import opened TelemetryStore
  import opened TelemetryHistory

  // ---- what stays ----

  predicate SameRuns(a: Db, b: Db, but: string) {
    b.runs.Keys == a.runs.Keys + {but} && forall r :: r in a.runs && r != but ==> b.runs[r] == a.runs[r]
  }

  predicate SameInvocations(a: Db, b: Db, but: string) {
    && b.invocations.Keys == a.invocations.Keys + {but}
    && forall i :: i in a.invocations && i != but ==> b.invocations[i] == a.invocations[i]
  }

  /** One event of the run is appended, under the next number, and counted. */
  predicate Appends(a: Db, b: Db, runId: string, eventType: EventType, at: int, stage: RunStage) {
    && runId in b.runs && b.runs[runId].lastSequence == 1 + (if runId in a.runs then a.runs[runId].lastSequence else 0)
    && |b.events| == |a.events| + 1 && a.events <= b.events
    && b.events[|a.events|].runId == runId && b.events[|a.events|].sequence == b.runs[runId].lastSequence
    && b.events[|a.events|].at == at && b.events[|a.events|].eventType == eventType
    && b.events[|a.events|].stage == stage
  }

  /** A call about a run: one event, and the rows of everything else as they were. */
  predicate RunCall(a: Db, b: Db, runId: string, eventType: EventType, at: int, stage: RunStage) {
    && Appends(a, b, runId, eventType, at, stage) && SameRuns(a, b, runId)
    && b.invocations == a.invocations && b.usage == a.usage && b.projections == a.projections
  }

  // ---- calls about a run ----

  lemma StartRunExactly(db: Db, r: Request)
    requires r.StartRun?
    ensures Step(db, r).Some? <==>
      && (r.issue.Some? ==> r.issue.value >= 1) && (r.score.Some? ==> 0 <= r.score.value <= 100)
      && (r.runId in db.runs ==>
            var e := db.runs[r.runId];
            && e.kind == r.kind && e.stage == r.stage && e.repository == r.repository
            && e.issue == r.issue && e.score == r.score && e.window == r.window)
    ensures Step(db, r).Some? && r.runId !in db.runs ==>
      && RunCall(db, Apply(db, r), r.runId, RunStarted, r.at, r.stage)
      && (var row := Apply(db, r).runs[r.runId];
          && row.kind == r.kind && row.stage == r.stage && !row.terminal && row.repository == r.repository
          && row.issue == r.issue && row.score == r.score && row.window == r.window && row.lastSequence == 1
          && row.failureCode.None? && row.statusCode.None? && row.prUrl.None? && row.cleanup.NotStarted?)
  {
  }

  /** The row is as it was, up to what the call is for. */
  lemma RecordEventExactly(db: Db, r: Request)
    requires r.RecordEvent?
    ensures Step(db, r).Some? <==> r.runId in db.runs && !db.runs[r.runId].terminal
    ensures Step(db, r).Some? ==>
      var stage := if r.stageOverride.Some? then r.stageOverride.value else db.runs[r.runId].stage;
      && RunCall(db, Apply(db, r), r.runId, r.eventType, r.at, stage)
      && Apply(db, r).runs[r.runId] == db.runs[r.runId].(lastSequence := db.runs[r.runId].lastSequence + 1)
  {
  }

  lemma TransitionExactly(db: Db, r: Request)
    requires r.TransitionRun?
    ensures Step(db, r).Some? <==>
      r.runId in db.runs && !db.runs[r.runId].terminal
      && r.stage !in {Complete, Deferred, Skipped, RunStage.Failed, Aborted, CleanupPending}
    ensures Step(db, r).Some? ==>
      var (before, after) := (db.runs[r.runId], Apply(db, r).runs[r.runId]);
      && RunCall(db, Apply(db, r), r.runId, State, r.at, r.stage)
      && after == before.(stage := r.stage, lastSequence := before.lastSequence + 1)
  {
  }

  lemma SetTargetExactly(db: Db, r: Request)
    requires r.SetTarget?
    ensures Step(db, r).Some? <==>
      && r.number >= 1 && 0 <= r.points <= 100 && r.runId in db.runs && !db.runs[r.runId].terminal
      && (var e := db.runs[r.runId];
          || (e.repository.None? && e.issue.None? && e.score.None?)
          || (e.repository == Some(r.slug) && e.issue == Some(r.number) && e.score == Some(r.points)))
    ensures Step(db, r).Some? ==>
      var (before, after) := (db.runs[r.runId], Apply(db, r).runs[r.runId]);
      && RunCall(db, Apply(db, r), r.runId, CandidateSelected, r.at, before.stage)
      && after == before.(repository := Some(r.slug), issue := Some(r.number), score := Some(r.points),
                          lastSequence := before.lastSequence + 1)
  {
  }

  lemma SetCleanupExactly(db: Db, r: Request)
    requires r.SetCleanup?
    ensures Step(db, r).Some? <==> r.runId in db.runs && !db.runs[r.runId].terminal
    ensures Step(db, r).Some? ==>
      var (before, after) := (db.runs[r.runId], Apply(db, r).runs[r.runId]);
      && RunCall(db, Apply(db, r), r.runId, CleanupEvent, r.at, before.stage)
      && after == before.(cleanup := r.cleanup, lastSequence := before.lastSequence + 1)
  {
  }

  lemma FinishRunExactly(db: Db, r: Request)
    requires r.FinishRun?
    ensures Step(db, r).Some? <==>
      && r.stage in {Complete, Deferred, Skipped, RunStage.Failed, Aborted, CleanupPending} && r.runId in db.runs
      && (var e := db.runs[r.runId];
          e.terminal ==>
            && e.stage == r.stage && e.failureCode == r.failureCode && e.statusCode == r.statusCode
                && e.prUrl == r.prUrl
            && (r.finalCleanup.Some? ==> e.cleanup == r.finalCleanup.value))
    ensures Step(db, r).Some? && !db.runs[r.runId].terminal ==>
      var (before, after) := (db.runs[r.runId], Apply(db, r).runs[r.runId]);
      && RunCall(db, Apply(db, r), r.runId, RunFinished, r.at, r.stage)
      && after.terminal && after.stage == r.stage && after.failureCode == r.failureCode
      && after.statusCode == r.statusCode && after.prUrl == r.prUrl
      && after.cleanup == (if r.finalCleanup.Some? then r.finalCleanup.value else before.cleanup)
      && after.repository == before.repository && after.issue == before.issue && after.score == before.score
      && after.window == before.window && after.kind == before.kind
  {
  }

  // ---- projections ----

  /** The states that a reservation has shown so far, in the order of the rows. */
  predicate NeverShown(ps: seq<Projection>, id: string) {
    forall k :: 0 <= k < |ps| ==> ps[k].reservationId != Some(id)
  }

  predicate LastShown(ps: seq<Projection>, id: string, state: ReservationState) {
    exists k :: 0 <= k < |ps| && ps[k].reservationId == Some(id) && ps[k].state == state
                && forall j :: k < j < |ps| ==> ps[j].reservationId != Some(id)
  }

  lemma ShownStep(ps: seq<Projection>, id: string, state: ReservationState)
    requires ps != []
    ensures var (front, last) := (ps[..|ps| - 1], ps[|ps| - 1]);
            LastShown(ps, id, state)
            <==> if last.reservationId == Some(id) then last.state == state else LastShown(front, id, state)
  {
    var (n, front) := (|ps| - 1, ps[..|ps| - 1]);
    assert forall k :: 0 <= k < n ==> front[k] == ps[k];
    if ps[n].reservationId != Some(id) && LastShown(front, id, state) {
      var k :| 0 <= k < n && front[k].reservationId == Some(id) && front[k].state == state
               && forall j :: k < j < n ==> front[j].reservationId != Some(id);
      assert ps[k] == front[k];
    }
    if ps[n].reservationId != Some(id) && LastShown(ps, id, state) {
      var k :| 0 <= k < |ps| && ps[k].reservationId == Some(id) && ps[k].state == state
               && forall j :: k < j < |ps| ==> ps[j].reservationId != Some(id);
      assert front[k] == ps[k];
    }
  }

  lemma {:induction false} HistoryShows(ps: seq<Projection>, id: string, state: ReservationState)
    ensures History(ps, id) == [] <==> NeverShown(ps, id)
    ensures LastShown(ps, id, state) <==> History(ps, id) != [] && History(ps, id)[|History(ps, id)| - 1] == state
  {
    if ps != [] {
      HistoryShows(ps[..|ps| - 1], id, state);
      ShownStep(ps, id, state);
      hide LastShown;
    }
  }

  lemma FollowsExactly(ps: seq<Projection>, id: string, state: ReservationState)
    ensures MayFollow(History(ps, id), state) <==>
              if state.Reserved? then NeverShown(ps, id) else !state.Snapshot? && LastShown(ps, id, Reserved)
  {
    HistoryShows(ps, id, Reserved);
    hide LastShown, NeverShown, History;
  }

  lemma NoOtherWindow(bound: Option<string>, window: string)
    ensures bound in {None, Some(window)} <==> (bound.Some? ==> bound.value == window)
  {
    assert bound == None || bound == Some(bound.value);
  }

  predicate SameProjection(p: Projection, q: Projection) {
    && p.kind == q.kind && p.window == q.window && p.runId == q.runId && p.reservationId == q.reservationId
    && p.state == q.state && p.maximum == q.maximum && p.remaining == q.remaining && p.reserve == q.reserve
    && p.reserved == q.reserved && p.source == q.source
  }

  /** A projection id that is known accepts its own data only; a new one has to fit its run and its reservation. */
  lemma ProjectionExactly(db: Db, p: Projection)
    ensures var known := exists q :: q in db.projections && q.id == p.id;
            Step(db, RecordProjection(p)).Some? ==>
              && ValidProjection(p)
              && (known ==> exists q :: q in db.projections && q.id == p.id && SameProjection(q, p))
              && (!known && p.runId.Some? ==>
                    && p.runId.value in db.runs && db.runs[p.runId.value].kind == p.kind
                    && (db.runs[p.runId.value].window.Some? ==> db.runs[p.runId.value].window.value == p.window))
              && (!known && p.reservationId.Some? ==>
                    if p.state.Reserved? then NeverShown(db.projections, p.reservationId.value)
                    else LastShown(db.projections, p.reservationId.value, Reserved))
    ensures Step(db, RecordProjection(p)).Some? && (exists q :: q in db.projections && q.id == p.id) ==>
      Apply(db, RecordProjection(p)) == db
  {
    if p.reservationId.Some? {
      FollowsExactly(db.projections, p.reservationId.value, p.state);
    }
    hide LastShown, NeverShown, History, MayFollow;
  }

  /** And whatever fits is taken: the row is appended as given, and its run, if it names one, is bound to the window. */
  lemma ProjectionStores(db: Db, p: Projection)
    requires ValidProjection(p) && forall q :: q in db.projections ==> q.id != p.id
    requires p.runId.Some? ==>
      && p.runId.value in db.runs && db.runs[p.runId.value].kind == p.kind
      && (db.runs[p.runId.value].window.Some? ==> db.runs[p.runId.value].window.value == p.window)
    requires p.reservationId.Some? ==>
      if p.state.Reserved? then NeverShown(db.projections, p.reservationId.value)
      else !p.state.Snapshot? && LastShown(db.projections, p.reservationId.value, Reserved)
    ensures Step(db, RecordProjection(p)).Some?
    ensures var b := Apply(db, RecordProjection(p));
            && b.projections == db.projections + [p] && b.usage == db.usage && b.invocations == db.invocations
            && (p.runId.None? ==> b.runs == db.runs && b.events == db.events)
            && (p.runId.Some? ==>
                  var (before, after) := (db.runs[p.runId.value], b.runs[p.runId.value]);
                  && Appends(db, b, p.runId.value, if p.state.Snapshot? then BudgetObserved
                             else BudgetReserved, p.at, before.stage)
                  && SameRuns(db, b, p.runId.value)
                  && after == before.(window := Some(p.window), lastSequence := before.lastSequence + 1))
  {
    assert FindProjection(db.projections, p.id).None?;
    if p.reservationId.Some? {
      FollowsExactly(db.projections, p.reservationId.value, p.state);
      assert MayFollow(History(db.projections, p.reservationId.value), p.state);
    }
    if p.runId.Some? {
      NoOtherWindow(db.runs[p.runId.value].window, p.window);
    }
    hide LastShown, NeverShown, History, MayFollow, ValidProjection, FindProjection;
  }

  lemma ValidProjectionExactly(p: Projection)
    ensures ValidProjection(p) <==>
      && (p.maximum.Some? ==> 0 <= p.maximum.value <= 1_000_000_000)
      && (p.remaining.Some? ==> 0 <= p.remaining.value <= 1_000_000_000)
      && 0 <= p.reserve <= 1_000_000_000 && 0 <= p.reserved <= 1_000_000_000
      && (p.maximum.Some? && p.remaining.Some? ==> p.remaining.value <= p.maximum.value)
      && (p.state.Snapshot? <==> p.reservationId.None?) && (p.source.SyntheticBudget? ==> p.kind.Training?)
  {
  }

  // ---- calls about an invocation ----

  /** A call about an invocation: its row may change, and one event of its run may be appended. */
  predicate ModelCall(a: Db, b: Db, id: string, eventType: EventType, at: int) {
    && id in b.invocations && b.invocations[id].runId in a.runs && SameInvocations(a, b, id)
        && b.projections == a.projections
    && (var runId := b.invocations[id].runId;
        && Appends(a, b, runId, eventType, at, a.runs[runId].stage) && SameRuns(a, b, runId)
        && b.runs[runId] == a.runs[runId].(lastSequence := b.runs[runId].lastSequence))
  }

  lemma StartModelExactly(db: Db, r: Request)
    requires r.StartModel?
    ensures Step(db, r).Some? <==>
      && 0 <= r.attempt <= 100 && (r.cap.Some? ==> 0 <= r.cap.value <= 1_000_000_000)
      && r.runId in db.runs && !db.runs[r.runId].terminal
      && (r.backend.TrainingBackend? ==> db.runs[r.runId].kind.Training?)
      && (r.invocationId in db.invocations ==>
            var e := db.invocations[r.invocationId];
            && e.runId == r.runId && e.stage == r.modelStage && e.attempt == r.attempt && e.backend == r.backend
            && e.provider == r.provider && e.model == r.model && e.cap == r.cap)
      && (r.invocationId !in db.invocations ==>
            forall i ::
                i in db.invocations && db.invocations[i].runId == r.runId && db.invocations[i].stage == r.modelStage ==>
              db.invocations[i].attempt != r.attempt)
    ensures Step(db, r).Some? && r.invocationId !in db.invocations ==>
      var (b, i) := (Apply(db, r), r.invocationId);
      && ModelCall(db, b, i, ModelStarted, r.at) && b.usage == db.usage
      && b.invocations[i].runId == r.runId && b.invocations[i].stage == r.modelStage
      && b.invocations[i].attempt == r.attempt && b.invocations[i].backend == r.backend
      && b.invocations[i].provider == r.provider && b.invocations[i].model == r.model && b.invocations[i].cap == r.cap
      && b.invocations[i].state.Starting? && b.invocations[i].identity.Unknown? && b.invocations[i].observed.None?
      && b.invocations[i].controllerBeat.None? && b.invocations[i].adapterBeat.None?
      && b.invocations[i].usageStatus.UsagePending?
    ensures Step(db, r).Some? && r.invocationId in db.invocations ==> Apply(db, r) == db
  {
  }

  lemma CheckInExactly(db: Db, r: Request)
    requires r.CheckIn?
    ensures Step(db, r).Some? <==>
      && Open(db, r.invocationId)
      && (var i := db.invocations[r.invocationId];
          && (r.source.SyntheticIdentity? ==> db.runs[i.runId].kind.Training?)
          && (i.observed.Some? ==> i.observed.value == (r.provider, r.model, r.source)))
    ensures Step(db, r).Some? && db.invocations[r.invocationId].observed.None? ==>
      var (b, id) := (Apply(db, r), r.invocationId);
      var (before, after) := (db.invocations[id], b.invocations[id]);
      && ModelCall(db, b, id, ModelCheckin, r.at) && b.usage == db.usage
      && after.observed == Some((r.provider, r.model, r.source)) && after.state.Running?
      && (after.identity.Matched? <==> r.provider == before.provider && r.model == before.model)
      && (after.identity.Mismatch? <==> r.provider != before.provider || r.model != before.model)
      && after == before.(observed := after.observed, state := Running, identity := after.identity)
    ensures Step(db, r).Some? && db.invocations[r.invocationId].observed.Some? ==> Apply(db, r) == db
  {
  }

  /** The invocation is known, and has not ended. */
  predicate Open(db: Db, id: string) {
    && id in db.invocations && db.invocations[id].runId in db.runs
    && (db.invocations[id].state.Starting? || db.invocations[id].state.Running?)
  }

  /** Controller beats and all others go to two columns; only a first beat, or one a minute later, is an event. */
  lemma HeartbeatExactly(db: Db, r: Request)
    requires r.Heartbeat?
    ensures Step(db, r).Some? <==>
      && Open(db, r.invocationId)
      && (var i := db.invocations[r.invocationId];
          && (r.beat.ControllerBeat? && i.controllerBeat.Some? ==> i.controllerBeat.value <= r.at)
          && (!r.beat.ControllerBeat? && i.adapterBeat.Some? ==> i.adapterBeat.value <= r.at))
    ensures Step(db, r).Some? ==>
      var (b, id) := (Apply(db, r), r.invocationId);
      var (before, after) := (db.invocations[id], b.invocations[id]);
      var previous := if r.beat.ControllerBeat? then before.controllerBeat else before.adapterBeat;
      && SameInvocations(db, b, id) && b.usage == db.usage && b.projections == db.projections
      && after.controllerBeat == (if r.beat.ControllerBeat? then Some(r.at) else before.controllerBeat)
      && after.adapterBeat == (if r.beat.ControllerBeat? then before.adapterBeat else Some(r.at))
      && (previous != Some(r.at) ==> after.state.Running?)
      && after
          == before.(controllerBeat := after.controllerBeat, adapterBeat := after.adapterBeat, state := after.state)
      && (previous.None? || r.at >= previous.value + 60 * SECOND ==> ModelCall(db, b, id, ModelHeartbeat, r.at))
      && (previous.Some? && r.at < previous.value + 60 * SECOND ==> b.events == db.events && b.runs == db.runs)
  {
  }

  lemma UsageExactly(db: Db, u: UsageRow, at: int)
    ensures var known := exists v :: v in db.usage && v.invocationId == u.invocationId && v.requestKey == u.requestKey;
            && (Step(db, RecordUsage(u, at)).Some? ==>
                  && ValidUsage(u) && Open(db, u.invocationId)
                  && (u.source.SyntheticUsage? ==> db.runs[db.invocations[u.invocationId].runId].kind.Training?)
                  && (known ==> u in db.usage && Apply(db, RecordUsage(u, at)) == db))
            && (ValidUsage(u) && Open(db, u.invocationId) && !known
                && (u.source.SyntheticUsage? ==> db.runs[db.invocations[u.invocationId].runId].kind.Training?) ==>
                  Step(db, RecordUsage(u, at)).Some?)
    ensures Step(db, RecordUsage(u, at)).Some?
            && (forall v :: v in db.usage ==> v.invocationId != u.invocationId || v.requestKey != u.requestKey) ==>
      var (b, id) := (Apply(db, RecordUsage(u, at)), u.invocationId);
      var (before, after) := (db.invocations[id], b.invocations[id]);
      && ModelCall(db, b, id, ModelUsage, at) && b.usage == db.usage + [u]
      && after == before.(usageStatus := after.usageStatus)
  {
  }

  lemma ValidUsageExactly(u: UsageRow)
    ensures ValidUsage(u) <==>
      && 0 <= u.total <= 1_000_000_000
      && (u.components.Some? ==>
            var Components(input, output, cached, reasoning) := u.components.value;
            && input <= 1_000_000_000 && output <= 1_000_000_000 && 0 <= cached <= input && 0 <= reasoning <= output
            && input + output == u.total)
      && (u.source.EstimatedSource? ==> !u.exact)
      && (u.source.ProviderResponse? ==> u.exact) && (u.source.BrokerAttested? ==> u.exact)
  {
  }

  lemma FinishModelExactly(db: Db, r: Request)
    requires r.FinishModel?
    ensures Step(db, r).Some? <==>
      && r.state in {Succeeded, ModelFailed, TimedOut, Cancelled}
          && (r.exitCode.Some? ==> -255 <= r.exitCode.value <= 255)
      && r.invocationId in db.invocations
      && (var i := db.invocations[r.invocationId];
          if i.state.Starting? || i.state.Running? then
            i.runId in db.runs && !(r.state.Succeeded? && i.identity.Mismatch?)
          else i.state == r.state && i.exitCode == r.exitCode && i.failureCode == r.failureCode)
    ensures Step(db, r).Some? && Open(db, r.invocationId) ==>
      var (b, id) := (Apply(db, r), r.invocationId);
      var (before, after) := (db.invocations[id], b.invocations[id]);
      && ModelCall(db, b, id, ModelFinished, r.at) && b.usage == db.usage
      && after.state == r.state && after.exitCode == r.exitCode && after.failureCode == r.failureCode
      && after.usageStatus == (if before.usageStatus.UsagePending? then Unavailable else before.usageStatus)
      && after == before.(state := r.state, exitCode := r.exitCode, failureCode := r.failureCode,
                          usageStatus := after.usageStatus)
  {
  }

  // ---- the stage of a run, from its history ----

  /** The stage that an accepted call gives to the run, if it gives one. */
  function StageFrom(db: Db, r: Request, runId: string): Option<RunStage> {
    if Step(db, r).None? then None
    else match r
      case StartRun(id, _, stage, _, _, _, _, _) => if id == runId then Some(stage) else None
      case TransitionRun(id, stage, _) => if id == runId then Some(stage) else None
      case FinishRun(id, stage, _, _, _, _, _) => if id == runId then Some(stage) else None
      case _ => None
  }

  /** What the last accepted start, transition or finish of the run said. */
  function LastStage(requests: seq<Request>, runId: string): Option<RunStage> {
    if requests == [] then None
    else
      var (front, r) := (requests[..|requests| - 1], requests[|requests| - 1]);
      var given := StageFrom(Run(front), r, runId);
      if given.Some? then given else LastStage(front, runId)
  }

  lemma RunStageStep(db: Db, r: Request, runId: string)
    requires RunRequest(r)
    ensures var b := Apply(db, r);
            if StageFrom(db, r, runId).Some?
            then runId in b.runs && b.runs[runId].stage == StageFrom(db, r, runId).value
            else (runId in b.runs <==> runId in db.runs) &&
                 (runId in db.runs ==> b.runs[runId].stage == db.runs[runId].stage)
  {
  }

  lemma OtherStageStep(db: Db, r: Request, runId: string)
    requires !RunRequest(r)
    ensures var b := Apply(db, r);
            && StageFrom(db, r, runId).None?
            && (runId in b.runs <==> runId in db.runs)
            && (runId in db.runs ==> b.runs[runId].stage == db.runs[runId].stage)
  {
  }

  /** In every history, the stored stage of a run is the one that its last accepted stage-giving call gave. */
  lemma {:induction false} StageIsTheLastGiven(requests: seq<Request>, runId: string)
    ensures runId in Run(requests).runs <==> LastStage(requests, runId).Some?
    ensures runId in Run(requests).runs ==> Run(requests).runs[runId].stage == LastStage(requests, runId).value
  {
    if requests != [] {
      var (front, r) := (requests[..|requests| - 1], requests[|requests| - 1]);
      StageIsTheLastGiven(front, runId);
      if RunRequest(r) {
        RunStageStep(Run(front), r, runId);
      } else {
        OtherStageStep(Run(front), r, runId);
      }
      hide StageFrom, Apply;
    }
  }
}
