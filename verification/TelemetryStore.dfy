/**
 The telemetry store as five tables, and what each writer call does to them in one transaction:
 either the new tables, or nothing when the call is rejected and rolled back.
 */
module TelemetryStore {
  import opened Results
  import opened RunModels
  import opened Timestamps

  const MAX_COUNT := 1_000_000_000

  datatype RunKind = Production | Training
  datatype CleanupStatus = NotStarted | Pending | Proven | CleanupWentWrong

  datatype RunRow = RunRow(
    kind: RunKind, stage: RunStage, terminal: bool, repository: Option<string>, issue: Option<int>, score: Option<int>,
    failureCode: Option<string>, statusCode: Option<string>, prUrl: Option<string>, window: Option<string>,
    cleanup: CleanupStatus, lastSequence: nat)

  datatype EventType =
    | RunStarted | State | BudgetObserved | BudgetReserved | CandidateSelected | SandboxIsReady | ModelStarted
    | ModelCheckin | ModelHeartbeat | ModelUsage | ModelFinished | Verification | Review | Approval | Publication
    | CleanupEvent | TelemetryDegraded | RunFinished

  datatype EventRow = EventRow(runId: string, sequence: nat, at: int, eventType: EventType, stage: RunStage)

  datatype ModelStage = PlanningModel | ImplementationModel | ReviewModel
  datatype Backend = ContainerBackend | HostBackend | BrokerBackend | TrainingBackend
  datatype ModelState = Starting | Running | Succeeded | ModelFailed | TimedOut | Cancelled
  datatype Identity = Unknown | Matched | Mismatch
  datatype IdentitySource = ReportedIdentity | AttestedIdentity | SyntheticIdentity
  datatype BeatSource = ControllerBeat | AdapterBeat | BrokerBeat | SyntheticBeat
  datatype UsageStatus = UsagePending | Exact | Estimated | Partial | Unavailable
  datatype UsageSource = ProviderResponse | BrokerAttested | AdapterReported | EstimatedSource | SyntheticUsage

  datatype Invocation = Invocation(
    runId: string, stage: ModelStage, attempt: int, backend: Backend, provider: string, model: string, cap: Option<int>,
    identity: Identity, observed: Option<(string, string, IdentitySource)>, state: ModelState,
    controllerBeat: Option<int>, adapterBeat: Option<int>, exitCode: Option<int>, failureCode: Option<string>,
    usageStatus: UsageStatus)

  datatype Components = Components(input: int, output: int, cached: int, reasoning: int)

  datatype UsageRow = UsageRow(
    invocationId: string, requestKey: string, components: Option<Components>, total: int,
    source: UsageSource, exact: bool, final: bool)

  datatype ReservationState = Snapshot | Reserved | Released | Committed
  datatype BudgetSource = FixedEnvelope | CliOverride | Environment | ProviderAdapter | SyntheticBudget

  datatype Projection = Projection(
    id: string, kind: RunKind, window: string, runId: Option<string>, reservationId: Option<string>,
    state: ReservationState, maximum: Option<int>, remaining: Option<int>, reserve: int, reserved: int,
    source: BudgetSource, at: int)

  datatype Db = Db(
    runs: map<string, RunRow>, events: seq<EventRow>, invocations: map<string, Invocation>,
    usage: seq<UsageRow>, projections: seq<Projection>)

  const EMPTY := Db(map[], [], map[], [], [])

  predicate TerminalModel(s: ModelState) {
    s in {Succeeded, ModelFailed, TimedOut, Cancelled}
  }

  predicate IsCount(n: int) {
    0 <= n <= MAX_COUNT
  }

  predicate OptionalCount(n: Option<int>) {
    n.Some? ==> IsCount(n.value)
  }

  /** `_append_event`: the next number of the run. */
  function AppendEvent(db: Db, runId: string, eventType: EventType, at: int, stage: RunStage): Db
    requires runId in db.runs
  {
    var n := db.runs[runId].lastSequence + 1;
    db.(events := db.events + [EventRow(runId, n, at, eventType, stage)],
        runs := db.runs[runId := db.runs[runId].(lastSequence := n)])
  }

  // ---- the writer calls ----

  datatype Request =
    | StartRun(runId: string, kind: RunKind, stage: RunStage, repository: Option<string>, issue: Option<int>,
               score: Option<int>, window: Option<string>, at: int)
    | RecordEvent(runId: string, eventType: EventType, stageOverride: Option<RunStage>, at: int)
    | TransitionRun(runId: string, stage: RunStage, at: int)
    | SetTarget(runId: string, slug: string, number: int, points: int, at: int)
    | SetCleanup(runId: string, cleanup: CleanupStatus, at: int)
    | FinishRun(runId: string, stage: RunStage, failureCode: Option<string>, statusCode: Option<string>,
                prUrl: Option<string>, finalCleanup: Option<CleanupStatus>, at: int)
    | RecordProjection(projection: Projection)
    | StartModel(invocationId: string, runId: string, modelStage: ModelStage, attempt: int, backend: Backend,
                 provider: string, model: string, cap: Option<int>, at: int)
    | CheckIn(invocationId: string, provider: string, model: string, source: IdentitySource, at: int)
    | Heartbeat(invocationId: string, beat: BeatSource, at: int)
    | RecordUsage(row: UsageRow, at: int)
    | FinishModel(invocationId: string, state: ModelState, exitCode: Option<int>, failureCode: Option<string>, at: int)

  /** The calls that name their run themselves. */
  predicate RunRequest(r: Request) {
    r.StartRun? || r.RecordEvent? || r.TransitionRun? || r.SetTarget? || r.SetCleanup? || r.FinishRun?
  }

  /** The row that a new run would have. */
  function NewRun(r: Request): RunRow
    requires r.StartRun?
  {
    RunRow(r.kind, r.stage, false, r.repository, r.issue, r.score, None, None, None, r.window, NotStarted, 0)
  }

  function StartedRun(db: Db, r: Request): Option<Db>
    requires r.StartRun?
  {
    if (r.issue.Some? && r.issue.value < 1) || (r.score.Some? && !(0 <= r.score.value <= 100)) then None
    else if r.runId in db.runs then
      var e := db.runs[r.runId];
      if (e.kind, e.stage, e.repository, e.issue, e.score, e.window)
         == (r.kind, r.stage, r.repository, r.issue, r.score, r.window) then Some(db) else None
    else Some(AppendEvent(db.(runs := db.runs[r.runId := NewRun(r)]), r.runId, RunStarted, r.at, r.stage))
  }

  /** An update of a run that is not terminal, with its event. */
  function Updated(db: Db, runId: string, row: RunRow, eventType: EventType, at: int, stage: RunStage): Option<Db>
  {
    if runId !in db.runs || db.runs[runId].terminal then None
    else Some(AppendEvent(db.(runs := db.runs[runId := row]), runId, eventType, at, stage))
  }

  function Targeted(db: Db, r: Request): Option<Db>
    requires r.SetTarget?
  {
    if r.number < 1 || !(0 <= r.points <= 100) || r.runId !in db.runs then None
    else
      var e := db.runs[r.runId];
      var target := (Some(r.slug), Some(r.number), Some(r.points));
      if (e.repository.Some? || e.issue.Some? || e.score.Some?) && (e.repository, e.issue, e.score) != target then None
      else Updated(db, r.runId, e.(repository := target.0, issue := target.1, score := target.2),
                   CandidateSelected, r.at, e.stage)
  }

  predicate SameOutcome(e: RunRow, stage: RunStage, failureCode: Option<string>, statusCode: Option<string>,
                        prUrl: Option<string>, cleanup: CleanupStatus)
  {
    && e.stage == stage && e.failureCode == failureCode && e.statusCode == statusCode
    && e.prUrl == prUrl && e.cleanup == cleanup
  }

  function FinishedRun(db: Db, r: Request): Option<Db>
    requires r.FinishRun?
  {
    if !TerminalStage(r.stage) || r.runId !in db.runs then None
    else
      var e := db.runs[r.runId];
      var cleanup := if r.finalCleanup.Some? then r.finalCleanup.value else e.cleanup;
      if e.terminal then
        if SameOutcome(e, r.stage, r.failureCode, r.statusCode, r.prUrl, cleanup) then Some(db) else None
      else
        Updated(db, r.runId, e.(stage := r.stage, terminal := true, failureCode := r.failureCode,
                                statusCode := r.statusCode, prUrl := r.prUrl, cleanup := cleanup),
                RunFinished, r.at, r.stage)
  }

  // -- budget projections --

  predicate ValidProjection(p: Projection) {
    && OptionalCount(p.maximum) && OptionalCount(p.remaining) && IsCount(p.reserve) && IsCount(p.reserved)
    && (p.maximum.Some? && p.remaining.Some? ==> p.remaining.value <= p.maximum.value)
    && (p.state.Snapshot? <==> p.reservationId.None?)
    && (p.source.SyntheticBudget? ==> p.kind.Training?)
  }

  function FindProjection(ps: seq<Projection>, id: string): (r: Option<Projection>)
    ensures r.Some? ==> r.value in ps && r.value.id == id
    ensures r.None? ==> forall p :: p in ps ==> p.id != id
  {
    if ps == [] then None
    else if ps[|ps| - 1].id == id then Some(ps[|ps| - 1])
    else FindProjection(ps[..|ps| - 1], id)
  }

  /** The states that a reservation has gone through, in order. */
  function History(ps: seq<Projection>, reservationId: string): seq<ReservationState> {
    if ps == [] then []
    else
      var last := ps[|ps| - 1];
      History(ps[..|ps| - 1], reservationId) + if last.reservationId == Some(reservationId) then [last.state] else []
  }

  predicate MayFollow(history: seq<ReservationState>, next: ReservationState) {
    if history == [] then next.Reserved?
    else history[|history| - 1].Reserved? && next in {Released, Committed}
  }

  function Projected(db: Db, p: Projection): Option<Db> {
    if !ValidProjection(p) then None
    else
      var existing := FindProjection(db.projections, p.id);
      if existing.Some? then (if existing.value.(at := p.at) == p then Some(db) else None)
      else if p.runId.Some? && (p.runId.value !in db.runs || db.runs[p.runId.value].kind != p.kind
                                || db.runs[p.runId.value].window !in {None, Some(p.window)}) then None
      else if p.reservationId.Some? && !MayFollow(History(db.projections, p.reservationId.value), p.state) then None
      else
        var stored := db.(projections := db.projections + [p]);
        if p.runId.None? then Some(stored)
        else
          var run := db.runs[p.runId.value];
          Some(AppendEvent(stored.(runs := db.runs[p.runId.value := run.(window := Some(p.window))]), p.runId.value,
                           if p.state.Snapshot? then BudgetObserved else BudgetReserved, p.at, run.stage))
  }

  // -- model invocations --

  function NewInvocation(r: Request): Invocation
    requires r.StartModel?
  {
    Invocation(r.runId, r.modelStage, r.attempt, r.backend, r.provider, r.model, r.cap,
               Unknown, None, Starting, None, None, None, None, UsagePending)
  }

  predicate SameRequest(i: Invocation, r: Request)
    requires r.StartModel?
  {
    (i.runId, i.stage, i.attempt, i.backend, i.provider, i.model, i.cap)
    == (r.runId, r.modelStage, r.attempt, r.backend, r.provider, r.model, r.cap)
  }

  predicate KeyTaken(db: Db, r: Request)
    requires r.StartModel?
  {
    r.invocationId in db.invocations ||
    exists i :: i in db.invocations && (db.invocations[i].runId, db.invocations[i].stage, db.invocations[i].attempt)
                                       == (r.runId, r.modelStage, r.attempt)
  }

  function StartedModel(db: Db, r: Request): Option<Db>
    requires r.StartModel?
  {
    if !(0 <= r.attempt <= 100) || !OptionalCount(r.cap) || r.runId !in db.runs then None
    else
      var run := db.runs[r.runId];
      if run.terminal || (r.backend.TrainingBackend? && !run.kind.Training?) then None
      else if KeyTaken(db, r) then
        if r.invocationId in db.invocations && SameRequest(db.invocations[r.invocationId], r) then Some(db) else None
      else Some(AppendEvent(db.(invocations := db.invocations[r.invocationId := NewInvocation(r)]),
                            r.runId, ModelStarted, r.at, run.stage))
  }

  /** The invocation and its run, if the invocation exists and is not terminal. */
  predicate OpenInvocation(db: Db, id: string) {
    id in db.invocations && !TerminalModel(db.invocations[id].state) && db.invocations[id].runId in db.runs
  }

  function WithInvocation(db: Db, id: string, i: Invocation): Db {
    db.(invocations := db.invocations[id := i])
  }

  function CheckedIn(db: Db, r: Request): Option<Db>
    requires r.CheckIn?
  {
    if !OpenInvocation(db, r.invocationId) then None
    else
      var i := db.invocations[r.invocationId];
      var run := db.runs[i.runId];
      if r.source.SyntheticIdentity? && !run.kind.Training? then None
      else if i.observed.Some? then (if i.observed.value == (r.provider, r.model, r.source) then Some(db) else None)
      else
        var identity := if (r.provider, r.model) == (i.provider, i.model) then Matched else Mismatch;
        var checked := i.(observed := Some((r.provider, r.model, r.source)), identity := identity, state := Running);
        Some(AppendEvent(WithInvocation(db, r.invocationId, checked), i.runId, ModelCheckin, r.at, run.stage))
  }

  function Beaten(db: Db, r: Request): Option<Db>
    requires r.Heartbeat?
  {
    if !OpenInvocation(db, r.invocationId) then None
    else
      var i := db.invocations[r.invocationId];
      var previous := if r.beat.ControllerBeat? then i.controllerBeat else i.adapterBeat;
      if previous.Some? && r.at < previous.value then None
      else if previous == Some(r.at) then Some(db)
      else
        var beaten := if r.beat.ControllerBeat? then i.(controllerBeat := Some(r.at), state := Running)
                      else i.(adapterBeat := Some(r.at), state := Running);
        var stored := WithInvocation(db, r.invocationId, beaten);
        if previous.Some? && r.at - previous.value < 60 * SECOND then Some(stored)
        else Some(AppendEvent(stored, i.runId, ModelHeartbeat, r.at, db.runs[i.runId].stage))
  }

  // -- usage --

  predicate ValidUsage(u: UsageRow) {
    && IsCount(u.total)
    && (u.components.Some? ==>
          var c := u.components.value;
          && IsCount(c.input) && IsCount(c.output) && IsCount(c.cached) && IsCount(c.reasoning)
          && c.cached <= c.input && c.reasoning <= c.output && u.total == c.input + c.output)
    && (u.source.EstimatedSource? ==> !u.exact)
    && (u.source.ProviderResponse? || u.source.BrokerAttested? ==> u.exact)
  }

  function FindUsage(us: seq<UsageRow>, invocationId: string, requestKey: string): (r: Option<UsageRow>)
    ensures r.Some? ==> r.value in us && r.value.invocationId == invocationId && r.value.requestKey == requestKey
    ensures r.None? ==> forall u :: u in us ==> u.invocationId != invocationId || u.requestKey != requestKey
  {
    if us == [] then None
    else
      var last := us[|us| - 1];
      if last.invocationId == invocationId && last.requestKey == requestKey then Some(last)
      else FindUsage(us[..|us| - 1], invocationId, requestKey)
  }

  predicate HasRow(us: seq<UsageRow>, id: string, exact: bool, final: bool) {
    exists k :: 0 <= k < |us| && us[k].invocationId == id && us[k].exact == exact && us[k].final == final
  }

  /** `_refresh_usage_status`, from the rows of one invocation. */
  function RefreshedStatus(us: seq<UsageRow>, id: string): UsageStatus {
    var exactFinal := HasRow(us, id, true, true);
    var estimatedFinal := HasRow(us, id, false, true);
    var unfinished := HasRow(us, id, true, false) || HasRow(us, id, false, false);
    if !exactFinal && !estimatedFinal && !unfinished then UsagePending
    else if exactFinal && !estimatedFinal && !unfinished then Exact
    else if estimatedFinal && !exactFinal && !unfinished then Estimated
    else Partial
  }

  function Used(db: Db, u: UsageRow, at: int): Option<Db> {
    if !ValidUsage(u) || !OpenInvocation(db, u.invocationId) then None
    else
      var i := db.invocations[u.invocationId];
      var run := db.runs[i.runId];
      if u.source.SyntheticUsage? && !run.kind.Training? then None
      else
        var existing := FindUsage(db.usage, u.invocationId, u.requestKey);
        if existing.Some? then (if existing.value == u then Some(db) else None)
        else
          var usage := db.usage + [u];
          var refreshed := i.(usageStatus := RefreshedStatus(usage, u.invocationId));
          Some(AppendEvent(WithInvocation(db.(usage := usage), u.invocationId, refreshed),
                           i.runId, ModelUsage, at, run.stage))
  }

  function FinishedModel(db: Db, r: Request): Option<Db>
    requires r.FinishModel?
  {
    if !TerminalModel(r.state) || (r.exitCode.Some? && !(-255 <= r.exitCode.value <= 255))
        || r.invocationId !in db.invocations
    then None
    else
      var i := db.invocations[r.invocationId];
      if TerminalModel(i.state) then
        if (i.state, i.exitCode, i.failureCode) == (r.state, r.exitCode, r.failureCode) then Some(db) else None
      else if (r.state.Succeeded? && i.identity.Mismatch?) || i.runId !in db.runs then None
      else
        var finished := i.(state := r.state, exitCode := r.exitCode, failureCode := r.failureCode,
                           usageStatus := if i.usageStatus.UsagePending? then Unavailable else i.usageStatus);
        Some(AppendEvent(WithInvocation(db, r.invocationId, finished), i.runId,
                         ModelFinished, r.at, db.runs[i.runId].stage))
  }

  /** One writer call: the committed tables, or none when it raises. */
  function Step(db: Db, r: Request): Option<Db> {
    match r
    case StartRun(_, _, _, _, _, _, _, _) => StartedRun(db, r)
    case RecordEvent(runId, eventType, stage, at) =>
      if runId !in db.runs then None
      else
        var run := db.runs[runId];
        Updated(db, runId, run, eventType, at, if stage.Some? then stage.value else run.stage)
    case TransitionRun(runId, stage, at) =>
      if TerminalStage(stage) || runId !in db.runs then None
      else Updated(db, runId, db.runs[runId].(stage := stage), State, at, stage)
    case SetTarget(_, _, _, _, _) => Targeted(db, r)
    case SetCleanup(runId, cleanup, at) =>
      if runId !in db.runs then None
      else Updated(db, runId, db.runs[runId].(cleanup := cleanup), CleanupEvent, at, db.runs[runId].stage)
    case FinishRun(_, _, _, _, _, _, _) => FinishedRun(db, r)
    case RecordProjection(p) => Projected(db, p)
    case StartModel(_, _, _, _, _, _, _, _, _) => StartedModel(db, r)
    case CheckIn(_, _, _, _, _) => CheckedIn(db, r)
    case Heartbeat(_, _, _) => Beaten(db, r)
    case RecordUsage(u, at) => Used(db, u, at)
    case FinishModel(_, _, _, _, _) => FinishedModel(db, r)
  }

  function Apply(db: Db, r: Request): Db {
    var next := Step(db, r);
    if next.Some? then next.value else db
  }

  function Run(requests: seq<Request>): Db {
    if requests == [] then EMPTY else Apply(Run(requests[..|requests| - 1]), requests[|requests| - 1])
  }
}
