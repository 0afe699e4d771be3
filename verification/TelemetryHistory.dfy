/**
 What no writer call can undo: the order in which states of the telemetry store follow each other,
 and the replays that this order makes harmless.
 */
module TelemetryHistory {
  import opened Results
  import opened RunModels
  import opened Timestamps
  import opened TelemetryStore
  import opened TelemetryInvariant

  predicate Kept<T(==)>(before: Option<T>, after: Option<T>) {
    before.Some? ==> after == before
  }

  predicate NotEarlier(before: Option<int>, after: Option<int>) {
    before.Some? ==> after.Some? && before.value <= after.value
  }

  /** A run keeps its kind, target and window; once terminal, only a window and events can be added. */
  predicate RunEvolves(a: RunRow, b: RunRow) {
    && a.kind == b.kind && a.lastSequence <= b.lastSequence
    && Kept(a.window, b.window) && Kept(a.repository, b.repository) && Kept(a.issue, b.issue) && Kept(a.score, b.score)
    && (a.terminal ==> b == a.(lastSequence := b.lastSequence, window := b.window))
  }

  /** An invocation keeps its request and its identity, its beats only advance, and a finished one is frozen. */
  predicate InvocationEvolves(a: Invocation, b: Invocation) {
    && (a.runId, a.stage, a.attempt, a.backend, a.provider, a.model, a.cap)
       == (b.runId, b.stage, b.attempt, b.backend, b.provider, b.model, b.cap)
    && Kept(a.observed, b.observed) && (a.observed.Some? ==> a.identity == b.identity)
    && NotEarlier(a.controllerBeat, b.controllerBeat) && NotEarlier(a.adapterBeat, b.adapterBeat)
    && (TerminalModel(a.state) ==> b == a)
  }

  /** No receipt is added to a finished invocation. */
  predicate ReceiptsClosed(a: Db, b: Db) {
    forall k :: |a.usage| <= k < |b.usage| && b.usage[k].invocationId in a.invocations ==>
      !TerminalModel(a.invocations[b.usage[k].invocationId].state)
  }

  ghost predicate Evolves(a: Db, b: Db) {
    && a.events <= b.events && a.usage <= b.usage && a.projections <= b.projections
    && (forall r :: r in a.runs ==> r in b.runs && RunEvolves(a.runs[r], b.runs[r]))
    && (forall i :: i in a.invocations ==> i in b.invocations && InvocationEvolves(a.invocations[i], b.invocations[i]))
    && ReceiptsClosed(a, b)
  }

  lemma EvolvesTransitive(a: Db, b: Db, c: Db)
    requires Evolves(a, b) && Evolves(b, c)
    ensures Evolves(a, c)
  {
    forall k | |a.usage| <= k < |c.usage| && c.usage[k].invocationId in a.invocations
      ensures !TerminalModel(a.invocations[c.usage[k].invocationId].state)
    {
      if k < |b.usage| {
        assert c.usage[k] == b.usage[k];
      }
    }
  }

  /** A changed or added run row that respects the order, and its event. */
  lemma RunCallEvolves(db: Db, runId: string, row: RunRow, eventType: EventType, at: int, stage: RunStage)
    requires runId in db.runs ==> RunEvolves(db.runs[runId], row)
    ensures Evolves(db, AppendEvent(db.(runs := db.runs[runId := row]), runId, eventType, at, stage))
  {
  }

  /** A changed or added invocation row that respects the order, with or without its event. */
  lemma InvocationCallEvolves(db: Db, id: string, i: Invocation, eventType: EventType, at: int, stage: RunStage)
    requires i.runId in db.runs && (id in db.invocations ==> InvocationEvolves(db.invocations[id], i))
    ensures Evolves(db, WithInvocation(db, id, i))
    ensures Evolves(db, AppendEvent(WithInvocation(db, id, i), i.runId, eventType, at, stage))
  {
  }

  lemma RunRequestEvolves(db: Db, r: Request)
    requires EventsNumbered(db)
    requires RunRequest(r)
    ensures Evolves(db, Apply(db, r))
  {
    hide EventsNumbered, Evolves;
    var next := Step(db, r);
    if next.Some? && next.value != db {
      var e := next.value.events[|db.events|];
      var n := if e.runId in db.runs then db.runs[e.runId].lastSequence else 0;
      var row := next.value.runs[e.runId].(lastSequence := n);
      assert next.value == AppendEvent(db.(runs := db.runs[e.runId := row]), e.runId, e.eventType, e.at, e.stage);
      RunCallEvolves(db, e.runId, row, e.eventType, e.at, e.stage);
    } else {
      StaysPut(db);
    }
  }

  lemma StaysPut(db: Db)
    ensures Evolves(db, db)
  {
  }

  lemma ModelCallEvolves(db: Db, r: Request)
    requires r.StartModel? || r.CheckIn? || r.Heartbeat? || r.FinishModel?
    ensures Evolves(db, Apply(db, r))
  {
    hide Evolves;
    StaysPut(db);
    var next := Step(db, r);
    if next.Some? && next.value != db {
      match r
      case StartModel(id, runId, _, _, _, _, _, _, at) =>
        InvocationCallEvolves(db, id, NewInvocation(r), ModelStarted, at, db.runs[runId].stage);
      case CheckIn(id, _, _, _, at) =>
        var i := next.value.invocations[id];
        InvocationCallEvolves(db, id, i, ModelCheckin, at, db.runs[i.runId].stage);
      case Heartbeat(id, _, at) =>
        var i := next.value.invocations[id];
        InvocationCallEvolves(db, id, i, ModelHeartbeat, at, db.runs[i.runId].stage);
      case FinishModel(id, _, _, _, at) =>
        var i := next.value.invocations[id];
        InvocationCallEvolves(db, id, i, ModelFinished, at, db.runs[i.runId].stage);
    }
  }

  lemma UsageEvolves(db: Db, u: UsageRow, at: int)
    ensures Evolves(db, Apply(db, RecordUsage(u, at)))
  {
    var us := Apply(db, RecordUsage(u, at)).usage;
    assert forall k :: |db.usage| <= k < |us| ==> us[k] == u;
  }

  lemma ProjectionEvolves(db: Db, p: Projection)
    ensures Evolves(db, Apply(db, RecordProjection(p)))
  {
  }

  /** Each call, accepted or rejected, respects the order. */
  lemma ApplyEvolves(db: Db, r: Request)
    requires EventsNumbered(db)
    ensures Evolves(db, Apply(db, r))
  {
    hide Apply, Evolves, EventsNumbered;
    match r
    case RecordProjection(p) => ProjectionEvolves(db, p);
    case RecordUsage(u, at) => UsageEvolves(db, u, at);
    case StartModel(_, _, _, _, _, _, _, _, _) => ModelCallEvolves(db, r);
    case CheckIn(_, _, _, _, _) => ModelCallEvolves(db, r);
    case Heartbeat(_, _, _) => ModelCallEvolves(db, r);
    case FinishModel(_, _, _, _, _) => ModelCallEvolves(db, r);
    case _ => RunRequestEvolves(db, r);
  }

  /** Whatever was stored at one point of a history constrains every later point. */
  lemma {:induction false} HistoryOnlyGrows(requests: seq<Request>, n: nat, m: nat)
    requires n <= m <= |requests|
    ensures Evolves(Run(requests[..n]), Run(requests[..m]))
  {
    if n == m {
      StaysPut(Run(requests[..n]));
    } else {
      HistoryOnlyGrows(requests, n, m - 1);
      assert requests[..m][..m - 1] == requests[..m - 1];
      EveryRunKeepsInv(requests[..m - 1]);
      ApplyEvolves(Run(requests[..m - 1]), requests[m - 1]);
      assert Run(requests[..m]) == Apply(Run(requests[..m - 1]), requests[m - 1]);
      hide *;
      EvolvesTransitive(Run(requests[..n]), Run(requests[..m - 1]), Run(requests[..m]));
    }
  }

  // ---- replays ----

  /** The calls that carry a key of their own, and so may be repeated after a lost answer. */
  predicate Keyed(r: Request) {
    r.StartRun? || r.FinishRun? || r.RecordProjection? || r.StartModel? || r.CheckIn?
        || r.RecordUsage? || r.FinishModel?
  }

  /** The same call, at another time. */
  function Again(r: Request, at: int): Request
    requires Keyed(r)
  {
    match r
    case RecordProjection(p) => RecordProjection(p.(at := at))
    case RecordUsage(u, _) => RecordUsage(u, at)
    case StartRun(id, kind, stage, repository, issue, score, window, _) =>
      StartRun(id, kind, stage, repository, issue, score, window, at)
    case FinishRun(id, stage, failure, status, url, cleanup, _) =>
        FinishRun(id, stage, failure, status, url, cleanup, at)
    case StartModel(id, run, stage, attempt, backend, provider, model, cap, _) =>
      StartModel(id, run, stage, attempt, backend, provider, model, cap, at)
    case CheckIn(id, provider, model, source, _) => CheckIn(id, provider, model, source, at)
    case FinishModel(id, state, code, failure, _) => FinishModel(id, state, code, failure, at)
  }

  lemma {:induction false} FindProjectionInPrefix(ps: seq<Projection>, qs: seq<Projection>, id: string)
    requires ps <= qs && FindProjection(ps, id).Some?
    requires forall i, j :: 0 <= i < j < |qs| ==> qs[i].id != qs[j].id
    ensures FindProjection(qs, id) == FindProjection(ps, id)
  {
    var p := FindProjection(ps, id).value;
    var q := FindProjection(qs, id);
    var k :| 0 <= k < |ps| && ps[k] == p;
    assert qs[k] == p;
    var j :| 0 <= j < |qs| && qs[j] == q.value;
  }

  lemma {:induction false} FindUsageInPrefix(us: seq<UsageRow>, vs: seq<UsageRow>, id: string, key: string)
    requires us <= vs && FindUsage(us, id, key).Some?
    requires forall i, j :: 0 <= i < j < |vs| ==>
        vs[i].invocationId != vs[j].invocationId || vs[i].requestKey != vs[j].requestKey
    ensures FindUsage(vs, id, key) == FindUsage(us, id, key)
  {
    var u := FindUsage(us, id, key).value;
    var v := FindUsage(vs, id, key);
    var k :| 0 <= k < |us| && us[k] == u;
    assert vs[k] == u;
    var j :| 0 <= j < |vs| && vs[j] == v.value;
  }

  /** A repetition of an accepted call about a run, after anything else, writes nothing. */
  lemma RunReplay(db: Db, later: Db, r: Request, at: int)
    requires (r.StartRun? || r.FinishRun?) && Step(db, r).Some? && Evolves(Apply(db, r), later)
    ensures Apply(later, Again(r, at)) == later
    ensures r.FinishRun? ==> Step(later, Again(r, at)) == Some(later)
  {
    var done := Apply(db, r);
    assert r.runId in done.runs && RunEvolves(done.runs[r.runId], later.runs[r.runId]);
    hide Evolves, AppendEvent;
    assert r.FinishRun? ==> done.runs[r.runId].terminal;
  }

  /** Likewise for a call about an invocation. */
  lemma ModelReplay(db: Db, later: Db, r: Request, at: int)
    requires (r.StartModel? || r.CheckIn? || r.FinishModel?) && Step(db, r).Some? && Evolves(Apply(db, r), later)
    ensures Apply(later, Again(r, at)) == later
    ensures r.FinishModel? ==> Step(later, Again(r, at)) == Some(later)
  {
    var done := Apply(db, r);
    assert r.invocationId in done.invocations;
    assert InvocationEvolves(done.invocations[r.invocationId], later.invocations[r.invocationId]);
    assert r.CheckIn? ==> done.invocations[r.invocationId].observed.Some?;
    assert r.FinishModel? ==> TerminalModel(done.invocations[r.invocationId].state);
    hide Evolves;
  }

  /** A repetition of an accepted keyed call, after anything else, writes nothing. */
  lemma ReplayWritesNothing(db: Db, later: Db, r: Request, at: int)
    requires KeysUnique(later) && Keyed(r) && Step(db, r).Some? && Evolves(Apply(db, r), later)
    ensures Apply(later, Again(r, at)) == later
    ensures r.FinishRun? || r.FinishModel? || r.RecordProjection? ==> Step(later, Again(r, at)) == Some(later)
  {
    match r
    case RecordProjection(p) =>
      ProjectionStored(db, p);
      FindProjectionInPrefix(Apply(db, r).projections, later.projections, p.id);
    case RecordUsage(u, when) =>
      UsageStored(db, u, when);
      FindUsageInPrefix(Apply(db, r).usage, later.usage, u.invocationId, u.requestKey);
    case _ =>
      if r.StartRun? || r.FinishRun? {
        RunReplay(db, later, r, at);
      } else {
        ModelReplay(db, later, r, at);
      }
  }

  lemma ProjectionStored(db: Db, p: Projection)
    requires Projected(db, p).Some?
    ensures ValidProjection(p)
    ensures var stored := FindProjection(Projected(db, p).value.projections, p.id);
            stored.Some? && stored.value.(at := p.at) == p
  {
    assert (db.projections + [p])[..|db.projections|] == db.projections;
  }

  lemma UsageStored(db: Db, u: UsageRow, at: int)
    requires Used(db, u, at).Some?
    ensures FindUsage(Used(db, u, at).value.usage, u.invocationId, u.requestKey) == Some(u)
  {
    assert (db.usage + [u])[..|db.usage|] == db.usage;
  }

  /** Over any history: once accepted, a keyed call can be repeated at any later point without effect. */
  lemma ReplaysAreHarmless(requests: seq<Request>, n: nat, m: nat, at: int)
    requires n < m <= |requests| && Keyed(requests[n]) && Step(Run(requests[..n]), requests[n]).Some?
    ensures Apply(Run(requests[..m]), Again(requests[n], at)) == Run(requests[..m])
  {
    EveryRunKeepsInv(requests[..n]);
    EveryRunKeepsInv(requests[..m]);
    assert requests[..n + 1][..n] == requests[..n];
    HistoryOnlyGrows(requests, n + 1, m);
    ReplayWritesNothing(Run(requests[..n]), Run(requests[..m]), requests[n], at);
  }

  /** The other run calls are not idempotent: each repetition that is accepted adds one more event. */
  lemma TargetReplayAddsAnEvent(db: Db, r: Request)
    requires r.SetTarget? && Step(db, r).Some?
    ensures var (once, twice) := (Apply(db, r), Apply(Apply(db, r), r));
            && twice.events == once.events + [twice.events[|once.events|]] && twice.runs.Keys == once.runs.Keys
            && twice.runs[r.runId] == once.runs[r.runId].(lastSequence := once.runs[r.runId].lastSequence + 1)
  {
  }

  /**
   Once a run is terminal its stored outcome never changes, though calls about its invocations and
   projections can still add events to it.
   */
  lemma OutcomeIsFrozen(requests: seq<Request>, n: nat, m: nat, runId: string)
    requires n <= m <= |requests| && runId in Run(requests[..n]).runs && Run(requests[..n]).runs[runId].terminal
    ensures runId in Run(requests[..m]).runs
    ensures var (a, b) := (Run(requests[..n]).runs[runId], Run(requests[..m]).runs[runId]);
            && b.terminal && b.lastSequence >= a.lastSequence
            && (b.stage, b.failureCode, b.statusCode, b.prUrl, b.cleanup)
               == (a.stage, a.failureCode, a.statusCode, a.prUrl, a.cleanup)
  {
    HistoryOnlyGrows(requests, n, m);
  }

  /** The first accepted finish decides: every later state shows exactly the outcome that it gave. */
  lemma FinishIsFinal(requests: seq<Request>, n: nat, m: nat)
    requires n < m <= |requests| && requests[n].FinishRun? && Step(Run(requests[..n]), requests[n]).Some?
    ensures requests[n].runId in Run(requests[..m]).runs
    ensures var (r, row) := (requests[n], Run(requests[..m]).runs[requests[n].runId]);
            && row.terminal && row.stage == r.stage && row.failureCode == r.failureCode
            && row.statusCode == r.statusCode && row.prUrl == r.prUrl
            && (r.finalCleanup.Some? ==> row.cleanup == r.finalCleanup.value)
  {
    assert requests[..n + 1][..n] == requests[..n];
    FinishTerminates(Run(requests[..n]), requests[n]);
    OutcomeIsFrozen(requests, n + 1, m, requests[n].runId);
  }

  lemma FinishTerminates(db: Db, r: Request)
    requires r.FinishRun? && Step(db, r).Some?
    ensures r.runId in Apply(db, r).runs
    ensures var row := Apply(db, r).runs[r.runId];
            && row.terminal && row.stage == r.stage && row.failureCode == r.failureCode
            && row.statusCode == r.statusCode && row.prUrl == r.prUrl
            && (r.finalCleanup.Some? ==> row.cleanup == r.finalCleanup.value)
  {
  }

  /** Likewise for an invocation, with everything else that its row says. */
  lemma ModelFinishIsFinal(requests: seq<Request>, n: nat, m: nat)
    requires n < m <= |requests| && requests[n].FinishModel? && Step(Run(requests[..n]), requests[n]).Some?
    ensures requests[n].invocationId in Run(requests[..n + 1]).invocations
    ensures requests[n].invocationId in Run(requests[..m]).invocations
    ensures var (r, row) := (requests[n], Run(requests[..m]).invocations[requests[n].invocationId]);
            && (row.state, row.exitCode, row.failureCode) == (r.state, r.exitCode, r.failureCode)
            && row == Run(requests[..n + 1]).invocations[r.invocationId] && !row.usageStatus.UsagePending?
  {
    assert requests[..n + 1][..n] == requests[..n];
    ModelFinishTerminates(Run(requests[..n]), requests[n]);
    HistoryOnlyGrows(requests, n + 1, m);
    EveryRunKeepsInv(requests[..n + 1]);
    var id := requests[n].invocationId;
    assert InvocationEvolves(Run(requests[..n + 1]).invocations[id], Run(requests[..m]).invocations[id]);
    assert Run(requests[..n + 1]).invocations[id].usageStatus == Classified(Run(requests[..n + 1]).usage, id, true);
  }

  lemma ModelFinishTerminates(db: Db, r: Request)
    requires r.FinishModel? && Step(db, r).Some?
    ensures r.invocationId in Apply(db, r).invocations && TerminalModel(Apply(db, r).invocations[r.invocationId].state)
    ensures var row := Apply(db, r).invocations[r.invocationId];
            (row.state, row.exitCode, row.failureCode) == (r.state, r.exitCode, r.failureCode)
  {
  }

  // ---- when a call adds an event ----

  /** The run that a call is about. */
  function RunOf(db: Db, r: Request): Option<string> {
    match r
    case StartRun(runId, _, _, _, _, _, _, _) => Some(runId)
    case RecordEvent(runId, _, _, _) => Some(runId)
    case TransitionRun(runId, _, _) => Some(runId)
    case SetTarget(runId, _, _, _, _) => Some(runId)
    case SetCleanup(runId, _, _) => Some(runId)
    case FinishRun(runId, _, _, _, _, _, _) => Some(runId)
    case RecordProjection(p) => p.runId
    case StartModel(_, runId, _, _, _, _, _, _, _) => Some(runId)
    case CheckIn(id, _, _, _, _) => if id in db.invocations then Some(db.invocations[id].runId) else None
    case Heartbeat(id, _, _) => if id in db.invocations then Some(db.invocations[id].runId) else None
    case RecordUsage(u, _) =>
      if u.invocationId in db.invocations then Some(db.invocations[u.invocationId].runId) else None
    case FinishModel(id, _, _, _, _) => if id in db.invocations then Some(db.invocations[id].runId) else None
  }

  /** The call says something new: it is no replay, and no second heartbeat of its kind within a minute. */
  predicate Novel(db: Db, r: Request) {
    match r
    case StartRun(id, _, _, _, _, _, _, _) => id !in db.runs
    case FinishRun(id, _, _, _, _, _, _) => id in db.runs && !db.runs[id].terminal
    case RecordProjection(p) => FindProjection(db.projections, p.id).None?
    case StartModel(_, _, _, _, _, _, _, _, _) => !KeyTaken(db, r)
    case CheckIn(id, _, _, _, _) => id in db.invocations && db.invocations[id].observed.None?
    case Heartbeat(id, beat, at) =>
      id in db.invocations &&
      var previous := if beat.ControllerBeat? then db.invocations[id].controllerBeat
          else db.invocations[id].adapterBeat;
      previous.None? || at >= previous.value + 60 * SECOND
    case RecordUsage(u, _) => FindUsage(db.usage, u.invocationId, u.requestKey).None?
    case FinishModel(id, _, _, _, _) => id in db.invocations && !TerminalModel(db.invocations[id].state)
    case _ => true
  }

  /** The call appends one event, and it is an event of the run. */
  predicate AddsEvent(db: Db, r: Request, runId: string) {
    var events := Apply(db, r).events;
    |events| == |db.events| + 1 && events[|db.events|].runId == runId
  }

  /** A call adds an event of a run exactly when it is accepted, about that run, and novel; else the events stay. */
  lemma EventExactlyWhenNovel(db: Db, r: Request, runId: string)
    ensures AddsEvent(db, r, runId) <==> Step(db, r).Some? && RunOf(db, r) == Some(runId) && Novel(db, r)
    ensures Apply(db, r).events == db.events || (RunOf(db, r).Some? && AddsEvent(db, r, RunOf(db, r).value))
  {
    if RunRequest(r) {
      RunEventWhenNovel(db, r, runId);
    } else if r.RecordProjection? || r.RecordUsage? {
      RowEventWhenNovel(db, r, runId);
    } else {
      ModelEventWhenNovel(db, r, runId);
    }
  }

  lemma RunEventWhenNovel(db: Db, r: Request, runId: string)
    requires RunRequest(r)
    ensures AddsEvent(db, r, runId) <==> Step(db, r).Some? && RunOf(db, r) == Some(runId) && Novel(db, r)
    ensures Apply(db, r).events == db.events || AddsEvent(db, r, RunOf(db, r).value)
  {
  }

  lemma RowEventWhenNovel(db: Db, r: Request, runId: string)
    requires r.RecordProjection? || r.RecordUsage?
    ensures AddsEvent(db, r, runId) <==> Step(db, r).Some? && RunOf(db, r) == Some(runId) && Novel(db, r)
    ensures Apply(db, r).events == db.events || (RunOf(db, r).Some? && AddsEvent(db, r, RunOf(db, r).value))
  {
  }

  lemma ModelEventWhenNovel(db: Db, r: Request, runId: string)
    requires r.StartModel? || r.CheckIn? || r.Heartbeat? || r.FinishModel?
    ensures AddsEvent(db, r, runId) <==> Step(db, r).Some? && RunOf(db, r) == Some(runId) && Novel(db, r)
    ensures Apply(db, r).events == db.events || (RunOf(db, r).Some? && AddsEvent(db, r, RunOf(db, r).value))
  {
  }

  /** The calls that do not look at the run's terminal flag. */
  predicate IgnoresTerminal(r: Request) {
    r.RecordProjection? || r.CheckIn? || r.Heartbeat? || r.RecordUsage? || r.FinishModel?
  }

  /**
   When a finished run still gains an event: exactly through an accepted and novel call about one of
   its invocations or projections.
   */
  lemma EventsOfTerminalRun(db: Db, r: Request, runId: string)
    requires runId in db.runs && db.runs[runId].terminal
    ensures AddsEvent(db, r, runId)
       <==> IgnoresTerminal(r) && Step(db, r).Some? && RunOf(db, r) == Some(runId) && Novel(db, r)
  {
    EventExactlyWhenNovel(db, r, runId);
    if !IgnoresTerminal(r) && RunOf(db, r) == Some(runId) {
      TerminalRunRefuses(db, r, runId);
    }
    hide *;
  }

  lemma TerminalRunRefuses(db: Db, r: Request, runId: string)
    requires runId in db.runs && db.runs[runId].terminal && !IgnoresTerminal(r) && RunOf(db, r) == Some(runId)
    ensures Step(db, r).None? || !Novel(db, r)
  {
  }

  /** Finishing a run does not finish its invocations, and their heartbeats still become events. */
  lemma FinishLeavesInvocationsOpen(db: Db, finish: Request, id: string, at: int)
    requires finish.FinishRun? && Step(db, finish).Some? && OpenInvocation(db, id)
    requires db.invocations[id].runId == finish.runId && db.invocations[id].controllerBeat.None?
    ensures var (done, later) := (Apply(db, finish), Apply(Apply(db, finish), Heartbeat(id, ControllerBeat, at)));
            && done.runs[finish.runId].terminal
            && AddsEvent(done, Heartbeat(id, ControllerBeat, at), finish.runId)
            && later.events[|done.events|].eventType == ModelHeartbeat
  {
  }

  lemma OpenAfterStart(start: Request, model: Request)
    requires start.StartRun? && Step(EMPTY, start).Some?
    requires model.StartModel? && model.runId == start.runId && model.attempt == 0
    requires model.cap.None? && model.backend.HostBackend?
    ensures var db := Apply(Apply(EMPTY, start), model);
            && start.runId in db.runs && !db.runs[start.runId].terminal && db.runs[start.runId].lastSequence == 2
            && OpenInvocation(db, model.invocationId) && db.invocations[model.invocationId] == NewInvocation(model)
  {
    assert !KeyTaken(Apply(EMPTY, start), model);
  }

  /** A history from the empty store in which a heartbeat becomes an event after the run has finished. */
  lemma EventAfterFinish(runId: string, id: string) returns (requests: seq<Request>)
    ensures |requests| == 4 && requests[2].FinishRun? && requests[3].Heartbeat?
    ensures var done := Run(requests[..3]);
            && runId in done.runs && done.runs[runId].terminal && done.runs[runId].stage == Complete
            && AddsEvent(done, requests[3], runId) && Run(requests) == Apply(done, requests[3])
  {
    var start := StartRun(runId, Production, Scheduled, None, None, None, None, 0);
    var model := StartModel(id, runId, PlanningModel, 0, HostBackend, "provider", "model", None, 1);
    var finish := FinishRun(runId, Complete, None, None, None, None, 2);
    requests := [start, model, finish, Heartbeat(id, ControllerBeat, 3)];
    RunOfFour(requests);
    hide Run;
    OpenAfterStart(start, model);
    var two := Apply(Apply(EMPTY, start), model);
    FinishAccepted(two, finish);
    FinishTerminates(two, finish);
    FinishLeavesInvocationsOpen(two, finish, id, 3);
    hide *;
  }

  lemma FinishAccepted(db: Db, finish: Request)
    requires finish.FinishRun? && TerminalStage(finish.stage)
    requires finish.runId in db.runs && !db.runs[finish.runId].terminal
    ensures Step(db, finish).Some?
  {
  }

  lemma RunOfFour(requests: seq<Request>)
    requires |requests| == 4
    ensures Run(requests[..3]) == Apply(Apply(Apply(EMPTY, requests[0]), requests[1]), requests[2])
    ensures Run(requests) == Apply(Run(requests[..3]), requests[3])
  {
    hide Apply;
    assert requests[..0] == [] && requests[..1][..0] == [] && requests[..2][..1] == requests[..1];
    assert requests[..3][..2] == requests[..2];
    assert Run(requests[..1]) == Apply(EMPTY, requests[0]);
    assert Run(requests[..2]) == Apply(Run(requests[..1]), requests[1]);
  }
}
