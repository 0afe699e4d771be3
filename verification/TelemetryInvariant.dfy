/**
 What every reachable state of the telemetry store satisfies, and what no call can ever change.
 */
module TelemetryInvariant {
  import opened Results
  import opened RunModels
  import opened TelemetryStore

  /** The event numbers of a run, in the order in which they were appended. */
  function Numbers(events: seq<EventRow>, runId: string): seq<nat> {
    if events == [] then []
    else
      var last := events[|events| - 1];
      Numbers(events[..|events| - 1], runId) + if last.runId == runId then [last.sequence] else []
  }

  function UpTo(n: nat): seq<nat> {
    seq(n, i => i + 1)
  }

  /** Every run's events are numbered 1 to its last number, without gap or repetition. */
  ghost predicate EventsNumbered(db: Db) {
    && (forall k :: 0 <= k < |db.events| ==> db.events[k].runId in db.runs)
    && (forall r :: r in db.runs ==> Numbers(db.events, r) == UpTo(db.runs[r].lastSequence))
  }

  /** A projection tied to a run has that run's kind and its one bound window. */
  predicate ProjectionsBound(db: Db) {
    forall k :: 0 <= k < |db.projections| && db.projections[k].runId.Some? ==>
      var p := db.projections[k];
      p.runId.value in db.runs && db.runs[p.runId.value].kind == p.kind
          && db.runs[p.runId.value].window == Some(p.window)
  }

  /** A reservation is reserved first, then released or committed at most once. */
  ghost predicate ReservationsOrdered(db: Db) {
    forall id :: History(db.projections, id) in {[], [Reserved], [Reserved, Released], [Reserved, Committed]}
  }

  predicate KeysUnique(db: Db) {
    && (forall i, j :: 0 <= i < j < |db.projections| ==> db.projections[i].id != db.projections[j].id)
    && (forall i, j :: 0 <= i < j < |db.usage| ==>
          db.usage[i].invocationId != db.usage[j].invocationId || db.usage[i].requestKey != db.usage[j].requestKey)
    && (forall a, b :: a in db.invocations && b in db.invocations && a != b ==>
          (db.invocations[a].runId, db.invocations[a].stage, db.invocations[a].attempt)
          != (db.invocations[b].runId, db.invocations[b].stage, db.invocations[b].attempt))
  }

  predicate HasRows(us: seq<UsageRow>, id: string) {
    exists k :: 0 <= k < |us| && us[k].invocationId == id
  }

  /** All rows of the invocation are final, with this exactness. */
  predicate AllRows(us: seq<UsageRow>, id: string, exact: bool) {
    forall k :: 0 <= k < |us| && us[k].invocationId == id ==> us[k].final && us[k].exact == exact
  }

  /** The status that the receipts of an invocation deserve. */
  function Classified(us: seq<UsageRow>, id: string, terminal: bool): UsageStatus {
    if !HasRows(us, id) then (if terminal then Unavailable else UsagePending)
    else if AllRows(us, id, true) then Exact
    else if AllRows(us, id, false) then Estimated
    else Partial
  }

  predicate UsageClassified(db: Db) {
    forall id :: id in db.invocations ==>
      db.invocations[id].usageStatus == Classified(db.usage, id, TerminalModel(db.invocations[id].state))
  }

  predicate References(db: Db) {
    && (forall id :: id in db.invocations ==> db.invocations[id].runId in db.runs)
    && (forall k :: 0 <= k < |db.usage| ==> db.usage[k].invocationId in db.invocations && ValidUsage(db.usage[k]))
  }

  function KindOf(db: Db, id: string): RunKind
    requires id in db.invocations && db.invocations[id].runId in db.runs
  {
    db.runs[db.invocations[id].runId].kind
  }

  /** Nothing synthetic is ever attached to a production run. */
  predicate TrainingIsolated(db: Db)
    requires References(db)
  {
    && (forall id :: id in db.invocations && KindOf(db, id).Production? ==>
          !db.invocations[id].backend.TrainingBackend?
          && (db.invocations[id].observed.Some? ==> !db.invocations[id].observed.value.2.SyntheticIdentity?))
    && (forall k :: 0 <= k < |db.usage| && KindOf(db, db.usage[k].invocationId).Production? ==>
          !db.usage[k].source.SyntheticUsage?)
    && (forall k :: 0 <= k < |db.projections| && db.projections[k].kind.Production? ==>
          !db.projections[k].source.SyntheticBudget?)
  }

  predicate MismatchNeverSucceeds(db: Db) {
    forall id :: id in db.invocations && db.invocations[id].state.Succeeded? ==> !db.invocations[id].identity.Mismatch?
  }

  /** The identity of an invocation is the verdict on what was observed, if anything was. */
  predicate Judged(i: Invocation) {
    if i.observed.None? then i.identity.Unknown?
    else i.identity == if (i.observed.value.0, i.observed.value.1) == (i.provider, i.model) then Matched else Mismatch
  }

  predicate IdentitiesJudged(db: Db) {
    forall id :: id in db.invocations ==> Judged(db.invocations[id])
  }

  /** A terminal run stands at a terminal stage. */
  predicate Settled(row: RunRow) {
    row.terminal ==> TerminalStage(row.stage)
  }

  predicate RunsSettled(db: Db) {
    forall r :: r in db.runs ==> Settled(db.runs[r])
  }

  ghost predicate Inv(db: Db) {
    && EventsNumbered(db) && ProjectionsBound(db) && ReservationsOrdered(db) && KeysUnique(db)
    && References(db) && UsageClassified(db) && TrainingIsolated(db) && MismatchNeverSucceeds(db)
    && IdentitiesJudged(db) && RunsSettled(db)
  }

  // ---- every call keeps the invariant ----

  lemma AppendNumbers(events: seq<EventRow>, e: EventRow, runId: string)
    ensures Numbers(events + [e], runId) == Numbers(events, runId) + if e.runId == runId then [e.sequence] else []
  {
    assert (events + [e])[..|events|] == events;
  }

  lemma UpToNext(n: nat)
    ensures UpTo(n + 1) == UpTo(n) + [n + 1]
  {
  }

  lemma {:induction false} UnknownRunHasNoNumbers(events: seq<EventRow>, runId: string)
    requires forall k :: 0 <= k < |events| ==> events[k].runId != runId
    ensures Numbers(events, runId) == []
  {
    if events != [] {
      UnknownRunHasNoNumbers(events[..|events| - 1], runId);
    }
  }

  /** Appending an event to a known run keeps the numbering, and touches only its last number. */
  lemma AppendKeepsNumbering(db: Db, runId: string, eventType: EventType, at: int, stage: RunStage)
    requires EventsNumbered(db) && runId in db.runs
    ensures EventsNumbered(AppendEvent(db, runId, eventType, at, stage))
  {
    var next := AppendEvent(db, runId, eventType, at, stage);
    var n := db.runs[runId].lastSequence;
    var e := EventRow(runId, n + 1, at, eventType, stage);
    UpToNext(n);
    hide Numbers, UpTo;
    forall r | r in next.runs
      ensures Numbers(next.events, r) == UpTo(next.runs[r].lastSequence)
    {
      AppendNumbers(db.events, e, r);
      assert Numbers(db.events, r) + [] == Numbers(db.events, r);
    }
  }

  /** The parts of the invariant that do not read the event table. */
  ghost predicate Rest(db: Db) {
    && ProjectionsBound(db) && ReservationsOrdered(db) && KeysUnique(db)
    && References(db) && UsageClassified(db) && TrainingIsolated(db) && MismatchNeverSucceeds(db)
    && IdentitiesJudged(db) && RunsSettled(db)
  }

  /** Two run rows that agree on what the rest of the invariant reads. */
  predicate SameBinding(a: RunRow, b: RunRow) {
    a.kind == b.kind && (a.window.Some? ==> a.window == b.window)
  }

  /** Changing or adding a run row keeps the rest, as long as its kind and window stay. */
  lemma RunChangeKeepsRest(db: Db, runId: string, row: RunRow)
    requires Rest(db) && Settled(row) && (runId in db.runs ==> SameBinding(db.runs[runId], row))
    ensures Rest(db.(runs := db.runs[runId := row]))
  {
  }

  lemma AppendKeepsRest(db: Db, runId: string, eventType: EventType, at: int, stage: RunStage)
    requires Rest(db) && runId in db.runs
    ensures Rest(AppendEvent(db, runId, eventType, at, stage))
  {
    RunChangeKeepsRest(db, runId, db.runs[runId].(lastSequence := db.runs[runId].lastSequence + 1));
  }

  /** A new or changed row of a known run, followed by an event. */
  lemma RunCallKeepsInv(db: Db, runId: string, row: RunRow, eventType: EventType, at: int, stage: RunStage)
    requires Inv(db) && Settled(row)
    requires if runId in db.runs then SameBinding(db.runs[runId], row)
        && db.runs[runId].lastSequence == row.lastSequence
             else row.lastSequence == 0
    ensures Inv(AppendEvent(db.(runs := db.runs[runId := row]), runId, eventType, at, stage))
  {
    var changed := db.(runs := db.runs[runId := row]);
    RunChangeKeepsRest(db, runId, row);
    if runId !in db.runs {
      UnknownRunHasNoNumbers(db.events, runId);
    }
    assert EventsNumbered(changed);
    AppendKeepsNumbering(changed, runId, eventType, at, stage);
    AppendKeepsRest(changed, runId, eventType, at, stage);
  }

  lemma AppendHistory(ps: seq<Projection>, p: Projection, id: string)
    ensures History(ps + [p], id) == History(ps, id) + if p.reservationId == Some(id) then [p.state] else []
  {
    assert (ps + [p])[..|ps|] == ps;
  }

  /** The permitted continuations are exactly those of the reservation life cycle. */
  lemma HistoryContinues(h: seq<ReservationState>, next: ReservationState)
    requires h in {[], [Reserved], [Reserved, Released], [Reserved, Committed]} && !next.Snapshot?
    ensures MayFollow(h, next) <==> h + [next] in {[Reserved], [Reserved, Released], [Reserved, Committed]}
  {
    if h == [] {
      assert h + [next] == [next];
    } else if h == [Reserved] {
      assert h + [next] == [Reserved, next];
    } else {
      assert |h + [next]| == 3;
    }
  }

  lemma ProjectionKeepsRest(db: Db, p: Projection)
    requires Rest(db) && Projected(db, p).Some? && FindProjection(db.projections, p.id).None?
    ensures var bound := if p.runId.None? then db.runs
                         else db.runs[p.runId.value := db.runs[p.runId.value].(window := Some(p.window))];
            Rest(db.(runs := bound, projections := db.projections + [p]))
  {
    var ps := db.projections + [p];
    forall id
      ensures History(ps, id) in {[], [Reserved], [Reserved, Released], [Reserved, Committed]}
    {
      AppendHistory(db.projections, p, id);
      if p.reservationId == Some(id) {
        HistoryContinues(History(db.projections, id), p.state);
      } else {
        assert History(ps, id) == History(db.projections, id);
      }
    }
    if p.runId.Some? {
      RunChangeKeepsRest(db, p.runId.value, db.runs[p.runId.value].(window := Some(p.window)));
    }
  }

  lemma ProjectionKeepsInv(db: Db, p: Projection)
    requires Inv(db)
    ensures Inv(Apply(db, RecordProjection(p)))
  {
    if Projected(db, p).Some? && FindProjection(db.projections, p.id).None? {
      ProjectionKeepsRest(db, p);
      if p.runId.Some? {
        var run := db.runs[p.runId.value];
        var bound := db.runs[p.runId.value := run.(window := Some(p.window))];
        var stored := db.(projections := db.projections + [p], runs := bound);
        assert EventsNumbered(stored);
        var eventType := if p.state.Snapshot? then BudgetObserved else BudgetReserved;
        AppendKeepsNumbering(stored, p.runId.value, eventType, p.at, run.stage);
        AppendKeepsRest(stored, p.runId.value, eventType, p.at, run.stage);
      }
    }
  }

  /** Storing an invocation row that fits keeps the rest. */
  lemma InvocationKeepsRest(db: Db, id: string, i: Invocation)
    requires Rest(db) && i.runId in db.runs
    requires if id in db.invocations then
               var was := db.invocations[id];
               (i.runId, i.stage, i.attempt, i.backend) == (was.runId, was.stage, was.attempt, was.backend)
             else !HasRows(db.usage, id) && forall a :: a in db.invocations ==>
               (db.invocations[a].runId, db.invocations[a].stage, db.invocations[a].attempt)
                   != (i.runId, i.stage, i.attempt)
    requires i.usageStatus == Classified(db.usage, id, TerminalModel(i.state))
    requires db.runs[i.runId].kind.Production? ==>
      !i.backend.TrainingBackend? && (i.observed.Some? ==> !i.observed.value.2.SyntheticIdentity?)
    requires (i.state.Succeeded? ==> !i.identity.Mismatch?) && Judged(i)
    ensures Rest(WithInvocation(db, id, i))
  {
  }

  /** Such a row followed by an event of its run. */
  lemma InvocationCallKeepsInv(db: Db, id: string, i: Invocation, eventType: EventType, at: int, stage: RunStage)
    requires Inv(db) && i.runId in db.runs && Rest(WithInvocation(db, id, i))
    ensures Inv(AppendEvent(WithInvocation(db, id, i), i.runId, eventType, at, stage))
    ensures Inv(WithInvocation(db, id, i))
  {
    assert EventsNumbered(WithInvocation(db, id, i));
    AppendKeepsNumbering(WithInvocation(db, id, i), i.runId, eventType, at, stage);
    AppendKeepsRest(WithInvocation(db, id, i), i.runId, eventType, at, stage);
  }

  /** The code's three flags classify the receipts as the definition does. */
  lemma RefreshedIsClassified(us: seq<UsageRow>, id: string)
    ensures RefreshedStatus(us, id) == Classified(us, id, false)
  {
    if k :| 0 <= k < |us| && us[k].invocationId == id {
      assert HasRow(us, id, us[k].exact, us[k].final);
    }
    if HasRow(us, id, true, true) || HasRow(us, id, false, true) || HasRow(us, id, true, false)
        || HasRow(us, id, false, false) {
      assert HasRows(us, id);
    }
    if !AllRows(us, id, true) {
      var k :| 0 <= k < |us| && us[k].invocationId == id && !(us[k].final && us[k].exact);
      assert HasRow(us, id, us[k].exact, us[k].final);
    }
    if !AllRows(us, id, false) {
      var k :| 0 <= k < |us| && us[k].invocationId == id && !(us[k].final && !us[k].exact);
      assert HasRow(us, id, us[k].exact, us[k].final);
    }
  }

  lemma OtherRowsUnmoved(us: seq<UsageRow>, u: UsageRow, id: string, terminal: bool)
    requires id != u.invocationId
    ensures Classified(us + [u], id, terminal) == Classified(us, id, terminal)
  {
    var more := us + [u];
    assert forall k :: 0 <= k < |us| ==> more[k] == us[k];
    if HasRows(us, id) {
      var k :| 0 <= k < |us| && us[k].invocationId == id;
      assert more[k].invocationId == id;
    }
    forall exact
      ensures AllRows(more, id, exact) <==> AllRows(us, id, exact)
    {
      if AllRows(more, id, exact) {
        assert forall k :: 0 <= k < |us| && us[k].invocationId == id ==> more[k].final && more[k].exact == exact;
      }
    }
  }

  lemma UsageStaysClassified(db: Db, u: UsageRow)
    requires UsageClassified(db) && OpenInvocation(db, u.invocationId)
    ensures var us := db.usage + [u];
            var i := db.invocations[u.invocationId].(usageStatus := RefreshedStatus(us, u.invocationId));
            UsageClassified(WithInvocation(db.(usage := us), u.invocationId, i))
  {
    var us := db.usage + [u];
    RefreshedIsClassified(us, u.invocationId);
    forall id | id in db.invocations && id != u.invocationId
      ensures db.invocations[id].usageStatus == Classified(us, id, TerminalModel(db.invocations[id].state))
    {
      OtherRowsUnmoved(db.usage, u, id, TerminalModel(db.invocations[id].state));
    }
    hide RefreshedStatus, Classified;
  }

  lemma UsageStaysReferenced(db: Db, u: UsageRow)
    requires KeysUnique(db) && References(db) && ValidUsage(u) && u.invocationId in db.invocations
    requires FindUsage(db.usage, u.invocationId, u.requestKey).None?
    ensures KeysUnique(db.(usage := db.usage + [u])) && References(db.(usage := db.usage + [u]))
  {
  }

  lemma UsageStaysIsolated(db: Db, u: UsageRow)
    requires References(db) && References(db.(usage := db.usage + [u]))
    requires TrainingIsolated(db) && u.invocationId in db.invocations
    requires u.source.SyntheticUsage? ==> KindOf(db, u.invocationId).Training?
    ensures TrainingIsolated(db.(usage := db.usage + [u]))
  {
  }

  lemma StatusIsNoKey(db: Db, id: string, status: UsageStatus)
    requires KeysUnique(db) && References(db) && id in db.invocations
    ensures KeysUnique(WithInvocation(db, id, db.invocations[id].(usageStatus := status)))
    ensures References(WithInvocation(db, id, db.invocations[id].(usageStatus := status)))
  {
    var next := WithInvocation(db, id, db.invocations[id].(usageStatus := status));
    forall a | a in next.invocations
      ensures a in db.invocations && (next.invocations[a].runId, next.invocations[a].stage, next.invocations[a].attempt)
                                     == (db.invocations[a].runId, db.invocations[a].stage, db.invocations[a].attempt)
    {
    }
    hide ValidUsage;
  }

  lemma StatusIsNoSource(db: Db, id: string, status: UsageStatus)
    requires References(db) && TrainingIsolated(db) && MismatchNeverSucceeds(db)
    requires IdentitiesJudged(db) && id in db.invocations
    requires References(WithInvocation(db, id, db.invocations[id].(usageStatus := status)))
    ensures TrainingIsolated(WithInvocation(db, id, db.invocations[id].(usageStatus := status)))
    ensures MismatchNeverSucceeds(WithInvocation(db, id, db.invocations[id].(usageStatus := status)))
    ensures IdentitiesJudged(WithInvocation(db, id, db.invocations[id].(usageStatus := status)))
  {
    hide ValidUsage;
  }

  /** Only the usage status of a row changes: nothing but the classification reads it. */
  lemma StatusChangeKeepsRest(db: Db, id: string, status: UsageStatus)
    requires ProjectionsBound(db) && ReservationsOrdered(db) && KeysUnique(db) && References(db)
    requires TrainingIsolated(db) && MismatchNeverSucceeds(db)
    requires IdentitiesJudged(db) && RunsSettled(db) && id in db.invocations
    requires UsageClassified(WithInvocation(db, id, db.invocations[id].(usageStatus := status)))
    ensures Rest(WithInvocation(db, id, db.invocations[id].(usageStatus := status)))
  {
    assert ReservationsOrdered(WithInvocation(db, id, db.invocations[id].(usageStatus := status)));
    StatusIsNoKey(db, id, status);
    StatusIsNoSource(db, id, status);
    hide UsageClassified, ReservationsOrdered, KeysUnique, TrainingIsolated, References,
        MismatchNeverSucceeds, IdentitiesJudged;
  }

  lemma UsageKeepsRest(db: Db, u: UsageRow, i: Invocation)
    requires Rest(db) && ValidUsage(u) && OpenInvocation(db, u.invocationId)
    requires FindUsage(db.usage, u.invocationId, u.requestKey).None?
    requires u.source.SyntheticUsage? ==> KindOf(db, u.invocationId).Training?
    requires i == db.invocations[u.invocationId].(usageStatus := RefreshedStatus(db.usage + [u], u.invocationId))
    ensures Rest(WithInvocation(db.(usage := db.usage + [u]), u.invocationId, i))
  {
    UsageStaysReferenced(db, u);
    UsageStaysIsolated(db, u);
    UsageStaysClassified(db, u);
    hide UsageClassified, ValidUsage, KeysUnique, TrainingIsolated, Rest;
    assert ReservationsOrdered(db.(usage := db.usage + [u])) && ProjectionsBound(db.(usage := db.usage + [u]));
    assert MismatchNeverSucceeds(db.(usage := db.usage + [u])) && IdentitiesJudged(db.(usage := db.usage + [u]));
    StatusChangeKeepsRest(db.(usage := db.usage + [u]), u.invocationId, i.usageStatus);
  }

  lemma UsageKeepsInv(db: Db, u: UsageRow, at: int)
    requires Inv(db)
    ensures Inv(Apply(db, RecordUsage(u, at)))
  {
    if Used(db, u, at).Some? && FindUsage(db.usage, u.invocationId, u.requestKey).None? {
      var i := db.invocations[u.invocationId].(usageStatus := RefreshedStatus(db.usage + [u], u.invocationId));
      UsageKeepsRest(db, u, i);
      var stored := WithInvocation(db.(usage := db.usage + [u]), u.invocationId, i);
      assert EventsNumbered(stored);
      AppendKeepsNumbering(stored, i.runId, ModelUsage, at, db.runs[i.runId].stage);
      AppendKeepsRest(stored, i.runId, ModelUsage, at, db.runs[i.runId].stage);
    }
  }

  lemma StartModelKeepsInv(db: Db, r: Request)
    requires Inv(db) && r.StartModel?
    ensures Inv(Apply(db, r))
  {
    if StartedModel(db, r).Some? && !KeyTaken(db, r) {
      assert !HasRows(db.usage, r.invocationId);
      InvocationKeepsRest(db, r.invocationId, NewInvocation(r));
      InvocationCallKeepsInv(db, r.invocationId, NewInvocation(r), ModelStarted, r.at, db.runs[r.runId].stage);
    }
  }

  lemma CheckInKeepsInv(db: Db, r: Request)
    requires Inv(db) && r.CheckIn?
    ensures Inv(Apply(db, r))
  {
    var next := CheckedIn(db, r);
    assert Step(db, r) == next;
    if next.Some? && next.value != db {
      var i := next.value.invocations[r.invocationId];
      InvocationKeepsRest(db, r.invocationId, i);
      InvocationCallKeepsInv(db, r.invocationId, i, ModelCheckin, r.at, db.runs[i.runId].stage);
      hide Inv, Rest, Step;
    }
  }

  lemma HeartbeatKeepsInv(db: Db, r: Request)
    requires Inv(db) && r.Heartbeat?
    ensures Inv(Apply(db, r))
  {
    var next := Beaten(db, r);
    assert Step(db, r) == next;
    if next.Some? && next.value != db {
      var i := next.value.invocations[r.invocationId];
      InvocationKeepsRest(db, r.invocationId, i);
      InvocationCallKeepsInv(db, r.invocationId, i, ModelHeartbeat, r.at, db.runs[i.runId].stage);
      hide Inv, Rest, Step;
    }
  }

  lemma FinishModelKeepsInv(db: Db, r: Request)
    requires Inv(db) && r.FinishModel?
    ensures Inv(Apply(db, r))
  {
    var next := FinishedModel(db, r);
    assert Step(db, r) == next;
    if next.Some? && next.value != db {
      var i := next.value.invocations[r.invocationId];
      InvocationKeepsRest(db, r.invocationId, i);
      InvocationCallKeepsInv(db, r.invocationId, i, ModelFinished, r.at, db.runs[i.runId].stage);
      hide Inv, Rest, Step;
    }
  }

  lemma RunRequestKeepsInv(db: Db, r: Request)
    requires Inv(db)
    requires RunRequest(r)
    ensures Inv(Apply(db, r))
  {
    var next := Step(db, r);
    if next.Some? && next.value != db {
      var e := next.value.events[|db.events|];
      var n := if e.runId in db.runs then db.runs[e.runId].lastSequence else 0;
      var row := next.value.runs[e.runId].(lastSequence := n);
      assert next.value == AppendEvent(db.(runs := db.runs[e.runId := row]), e.runId, e.eventType, e.at, e.stage);
      RunCallKeepsInv(db, e.runId, row, e.eventType, e.at, e.stage);
    }
  }

  /** The store's invariant holds after every sequence of writer calls, accepted or rejected. */
  lemma {:induction false} EveryRunKeepsInv(requests: seq<Request>)
    ensures Inv(Run(requests))
  {
    if requests != [] {
      var (front, r) := (requests[..|requests| - 1], requests[|requests| - 1]);
      EveryRunKeepsInv(front);
      match r
      case RecordProjection(p) => ProjectionKeepsInv(Run(front), p);
      case RecordUsage(u, at) => UsageKeepsInv(Run(front), u, at);
      case StartModel(_, _, _, _, _, _, _, _, _) => StartModelKeepsInv(Run(front), r);
      case CheckIn(_, _, _, _, _) => CheckInKeepsInv(Run(front), r);
      case Heartbeat(_, _, _) => HeartbeatKeepsInv(Run(front), r);
      case FinishModel(_, _, _, _, _) => FinishModelKeepsInv(Run(front), r);
      case _ => RunRequestKeepsInv(Run(front), r);
    }
  }
}
