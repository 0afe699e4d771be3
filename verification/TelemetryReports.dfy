/** What each field of the reader's summary says about the rows of the store. */
module TelemetryReports {
  import opened Results
  import opened Timestamps
  import opened TelemetryStore
  import opened TelemetryInvariant
  import opened TelemetrySummary
  import opened TelemetryIsolation

  /** The invocation belongs to a run of the kind, and to the window of the projection that is shown, if one is. */
  predicate Counts(db: Db, kind: RunKind, budget: Option<Projection>, id: string) {
    && id in db.invocations && db.invocations[id].runId in db.runs
    && db.runs[db.invocations[id].runId].kind == kind
    && (budget.Some? ==> db.runs[db.invocations[id].runId].window == Some(budget.value.window))
  }

  lemma CountsIsScope(db: Db, kind: RunKind, id: string)
    ensures id in db.invocations ==>
      (Counts(db, kind, LatestBudget(db.projections, kind), id)
       <==> InScope(db, kind, Scope(db, kind), db.invocations[id].runId))
  {
  }

  /** A final receipt that is summed: exact for the known tokens, inexact for the estimated ones. */
  predicate Summed(db: Db, kind: RunKind, budget: Option<Projection>, u: UsageRow, exact: bool) {
    u.final && u.exact == exact && Counts(db, kind, budget, u.invocationId)
  }

  /**
   Known usage is null exactly when no exact final receipt is in scope, estimated usage when no
   inexact one is; and each is the sum of the values that the model list shows for its invocations.
   */
  lemma UsageFields(db: Db, kind: RunKind, now: int, staleAfter: int, ids: seq<string>)
    requires Distinct(ids)
    requires forall i :: i in ids <==> Counts(db, kind, LatestBudget(db.projections, kind), i)
    ensures var s := Summarize(db, kind, now, staleAfter);
            && (s.known.None? <==> forall k :: 0 <= k < |db.usage| ==> !Summed(db, kind, s.budget, db.usage[k], true))
            && (s.estimated.None? <==> forall k :: 0 <= k < |db.usage| ==>
                !Summed(db, kind, s.budget, db.usage[k], false))
            && s.known == SumOfModels(db, ids, true) && s.estimated == SumOfModels(db, ids, false)
  {
    var window := Scope(db, kind);
    forall i
      ensures i in db.invocations && InScope(db, kind, window, db.invocations[i].runId)
         <==> Counts(db, kind, LatestBudget(db.projections, kind), i)
    {
      CountsIsScope(db, kind, i);
    }
    TokensNullIffNoReceipt(db, kind, window, true);
    TokensNullIffNoReceipt(db, kind, window, false);
    TokensAreTheModelsTokens(db, kind, window, true, ids);
    TokensAreTheModelsTokens(db, kind, window, false, ids);
    hide Tokens, LatestBudget, InScope, Counts, SumOfModels, RunCaps, FinishedWith, Finished, LatestEvent;
  }

  /** Runs are counted by their terminal flag, and every run of the kind is counted once. */
  lemma RunFields(db: Db, kind: RunKind, now: int, staleAfter: int)
    ensures var s := Summarize(db, kind, now, staleAfter);
            && s.activeRuns == |set r | r in db.runs && db.runs[r].kind == kind && !db.runs[r].terminal|
            && s.terminalRuns == |set r | r in db.runs && db.runs[r].kind == kind && db.runs[r].terminal|
            && s.activeRuns + s.terminalRuns == |set r | r in db.runs && db.runs[r].kind == kind|
  {
    var active := set r | r in db.runs && db.runs[r].kind == kind && !db.runs[r].terminal;
    var terminal := set r | r in db.runs && db.runs[r].kind == kind && db.runs[r].terminal;
    assert active == RunIds(db, kind, false) && terminal == RunIds(db, kind, true) && active !! terminal;
    assert (set r | r in db.runs && db.runs[r].kind == kind) == active + terminal;
    hide RunIds, LatestBudget, Tokens, RunCaps, FinishedWith, Finished, LatestEvent;
  }

  /** The quota that is shown: the latest projection of the kind, what it leaves to spend, and to reserve. */
  lemma BudgetFields(db: Db, kind: RunKind, now: int, staleAfter: int)
    ensures var s := Summarize(db, kind, now, staleAfter);
            && s.budget == LatestBudget(db.projections, kind)
            && (s.budget.None? || s.budget.value.remaining.None? <==> s.spendable.None?)
            && (s.available.None? <==> s.spendable.None?)
            && (s.spendable.Some? ==>
                  var (p, left) := (s.budget.value, s.budget.value.remaining.value - s.budget.value.reserve);
                  && (left >= 0 ==> s.spendable.value + p.reserve == p.remaining.value)
                  && (left < 0 ==> s.spendable.value == 0)
                  && (s.spendable.value >= p.reserved ==> s.available.value + p.reserved == s.spendable.value)
                  && (s.spendable.value < p.reserved ==> s.available.value == 0))
  {
    hide LatestBudget, Tokens, RunCaps, FinishedWith, Finished, LatestEvent;
  }

  /** Both beats that there are lie longer ago than allowed, and there is one. */
  predicate Silent(i: Invocation, now: int, staleAfter: int) {
    && (i.controllerBeat.Some? || i.adapterBeat.Some?)
    && (i.controllerBeat.Some? ==> i.controllerBeat.value + staleAfter * SECOND < now)
    && (i.adapterBeat.Some? ==> i.adapterBeat.value + staleAfter * SECOND < now)
  }

  lemma StaleIsSilent(i: Invocation, now: int, staleAfter: int)
    ensures HeartbeatStatus(i, now, staleAfter).NotApplicable? <==> TerminalModel(i.state)
    ensures HeartbeatStatus(i, now, staleAfter).UnknownBeat?
       <==> !TerminalModel(i.state) && i.controllerBeat.None? && i.adapterBeat.None?
    ensures HeartbeatStatus(i, now, staleAfter).Stale? <==> !TerminalModel(i.state) && Silent(i, now, staleAfter)
  {
    var beats := (if i.controllerBeat.Some? then {i.controllerBeat.value} else {})
                 + (if i.adapterBeat.Some? then {i.adapterBeat.value} else {});
    assert i.controllerBeat.Some? ==> i.controllerBeat.value in beats;
    assert i.adapterBeat.Some? ==> i.adapterBeat.value in beats;
    if |beats| > 0 {
      var latest := MaxOf(beats);
      assert latest in beats && forall b :: b in beats ==> b <= latest;
    }
  }

  predicate OfKind(db: Db, kind: RunKind, i: string) {
    i in db.invocations && db.invocations[i].runId in db.runs && db.runs[db.invocations[i].runId].kind == kind
  }

  /** The observation of a checked-in invocation is not what was asked for. */
  predicate Differs(i: Invocation) {
    i.observed.Some? && (i.observed.value.0 != i.provider || i.observed.value.1 != i.model)
  }

  /** Running invocations, those that fell silent, and those that answered as another model. */
  lemma ModelFields(db: Db, kind: RunKind, now: int, staleAfter: int)
    requires Inv(db)
    ensures var s := Summarize(db, kind, now, staleAfter);
            && s.activeModels == |set i | i in db.invocations && OfKind(db, kind, i)
                && !TerminalModel(db.invocations[i].state)|
            && s.stale == |set i | i in db.invocations && OfKind(db, kind, i) && !TerminalModel(db.invocations[i].state)
                                   && Silent(db.invocations[i], now, staleAfter)|
            && s.mismatches == |set i | i in db.invocations && OfKind(db, kind, i) && Differs(db.invocations[i])|
  {
    SetsBehind(db, kind, now, staleAfter);
    InvJudges(db);
    SilentModels(db, kind, now, staleAfter);
    DifferingModels(db, kind);
    RunningModels(db, kind);
    hide Summarize, Inv, Active, StaleModels, Mismatches;
  }

  lemma RunningModels(db: Db, kind: RunKind)
    ensures (set i | i in db.invocations && OfKind(db, kind, i) && !TerminalModel(db.invocations[i].state))
        == Active(db, kind)
  {
    hide TerminalModel;
  }

  lemma SilentModels(db: Db, kind: RunKind, now: int, staleAfter: int)
    ensures (set i | i in db.invocations && OfKind(db, kind, i) && !TerminalModel(db.invocations[i].state)
                     && Silent(db.invocations[i], now, staleAfter)) == StaleModels(db, kind, now, staleAfter)
  {
    hide TerminalModel, HeartbeatStatus, Silent;
    forall i | i in db.invocations
      ensures HeartbeatStatus(db.invocations[i], now, staleAfter).Stale?
         <==> !TerminalModel(db.invocations[i].state) && Silent(db.invocations[i], now, staleAfter)
    {
      StaleIsSilent(db.invocations[i], now, staleAfter);
    }
  }

  lemma DifferingModels(db: Db, kind: RunKind)
    requires IdentitiesJudged(db)
    ensures (set i | i in db.invocations && OfKind(db, kind, i) && Differs(db.invocations[i])) == Mismatches(db, kind)
  {
    hide Judged, Differs;
    forall i | i in db.invocations
      ensures db.invocations[i].identity.Mismatch? <==> Differs(db.invocations[i])
    {
      MismatchIsDiffering(db.invocations[i]);
    }
  }

  lemma InvJudges(db: Db)
    requires Inv(db)
    ensures IdentitiesJudged(db) && UsageClassified(db)
  {
  }

  lemma MismatchIsDiffering(i: Invocation)
    requires Judged(i)
    ensures i.identity.Mismatch? <==> Differs(i)
  {
  }

  /** The sets and rows behind the fields. */
  lemma SetsBehind(db: Db, kind: RunKind, now: int, staleAfter: int)
    ensures var (s, window) := (Summarize(db, kind, now, staleAfter), Scope(db, kind));
            && s.budget == LatestBudget(db.projections, kind) && s.latestEvent == LatestEvent(db, kind)
            && s.activeModels == |Active(db, kind)| && s.stale == |StaleModels(db, kind, now, staleAfter)|
            && s.mismatches == |Mismatches(db, kind)| && s.finished == |Finished(db, kind, window)|
            && s.exact == |FinishedWith(db, kind, window, Exact)|
            && s.unknown == |FinishedWith(db, kind, window, Unavailable)|
            && s.coverage == CoverageStatus(s.finished, s.exact) && s.caps == RunCaps(db, kind, window)
  {
    hide LatestBudget, LatestEvent, Active, StaleModels, Mismatches, Finished,
        FinishedWith, CoverageStatus, RunCaps, Tokens;
  }

  /** Finished invocations in scope, and of these the fully exact ones and those without any receipt. */
  lemma CoverageFields(db: Db, kind: RunKind, now: int, staleAfter: int)
    requires Inv(db)
    ensures var s := Summarize(db, kind, now, staleAfter);
            && s.finished == |set i | i in db.invocations && Counts(db, kind, s.budget, i)
                && TerminalModel(db.invocations[i].state)|
            && s.exact == |set i | i in db.invocations && Counts(db, kind, s.budget, i)
                                   && TerminalModel(db.invocations[i].state) && FullyExact(db, i)|
            && s.unknown == |set i | i in db.invocations && Counts(db, kind, s.budget, i)
                                     && TerminalModel(db.invocations[i].state) && !HasRows(db.usage, i)|
            && (s.coverage.NoneFinished? <==> s.finished == 0)
            && (s.coverage.Complete? <==> s.finished > 0 && s.exact == s.finished)
            && (s.coverage.NotCovered? <==> s.finished > 0 && s.exact == 0)
  {
    var budget := LatestBudget(db.projections, kind);
    SetsBehind(db, kind, now, staleAfter);
    InvJudges(db);
    FinishedInScope(db, kind);
    ExactInScope(db, kind);
    UnknownInScope(db, kind);
    hide Summarize, Inv, LatestBudget, Finished, FinishedWith, UsageClassified, Scope;
  }

  lemma FinishedInScope(db: Db, kind: RunKind)
    ensures (set i | i in db.invocations && Counts(db, kind, LatestBudget(db.projections, kind), i)
                     && TerminalModel(db.invocations[i].state)) == Finished(db, kind, Scope(db, kind))
  {
    hide TerminalModel, InScope, Counts, Scope, LatestBudget;
    forall i | i in db.invocations
      ensures Counts(db, kind, LatestBudget(db.projections, kind), i)
         <==> InScope(db, kind, Scope(db, kind), db.invocations[i].runId)
    {
      CountsIsScope(db, kind, i);
    }
  }

  lemma ExactInScope(db: Db, kind: RunKind)
    requires UsageClassified(db)
    ensures (set i | i in db.invocations && Counts(db, kind, LatestBudget(db.projections, kind), i)
                     && TerminalModel(db.invocations[i].state) && FullyExact(db, i))
         == FinishedWith(db, kind, Scope(db, kind), Exact)
  {
    FinishedInScope(db, kind);
    hide TerminalModel, FullyExact, Counts, Finished, Scope, LatestBudget;
    forall i | i in db.invocations && TerminalModel(db.invocations[i].state)
      ensures db.invocations[i].usageStatus.Exact? <==> FullyExact(db, i)
    {
      StatusSays(db, i);
    }
  }

  lemma UnknownInScope(db: Db, kind: RunKind)
    requires UsageClassified(db)
    ensures (set i | i in db.invocations && Counts(db, kind, LatestBudget(db.projections, kind), i)
                     && TerminalModel(db.invocations[i].state) && !HasRows(db.usage, i))
         == FinishedWith(db, kind, Scope(db, kind), Unavailable)
  {
    FinishedInScope(db, kind);
    hide TerminalModel, HasRows, Counts, Finished, Scope, LatestBudget;
    forall i | i in db.invocations && TerminalModel(db.invocations[i].state)
      ensures db.invocations[i].usageStatus.Unavailable? <==> !HasRows(db.usage, i)
    {
      StatusSays(db, i);
    }
  }

  lemma StatusSays(db: Db, i: string)
    requires UsageClassified(db) && i in db.invocations
    ensures TerminalModel(db.invocations[i].state) ==>
      && (db.invocations[i].usageStatus.Exact? <==> FullyExact(db, i))
      && (db.invocations[i].usageStatus.Unavailable? <==> !HasRows(db.usage, i))
  {
    assert db.invocations[i].usageStatus == Classified(db.usage, i, TerminalModel(db.invocations[i].state));
  }

  /** Each capped run in scope is there once, with the largest of its caps. */
  lemma CapFields(db: Db, kind: RunKind, now: int, staleAfter: int, runId: string)
    ensures var s := Summarize(db, kind, now, staleAfter);
            && (runId in s.caps <==> exists i :: i in db.invocations && Capped(db, kind, s.budget, runId, i))
            && (runId in s.caps ==>
                  && (exists i :: i in db.invocations && Capped(db, kind, s.budget, runId, i)
                                  && db.invocations[i].cap.value == s.caps[runId])
                  && forall i :: i in db.invocations && Capped(db, kind, s.budget, runId, i) ==>
                       db.invocations[i].cap.value <= s.caps[runId])
  {
    var (budget, window) := (LatestBudget(db.projections, kind), Scope(db, kind));
    SetsBehind(db, kind, now, staleAfter);
    hide Summarize, LatestBudget;
    forall i | i in db.invocations
      ensures Capped(db, kind, budget, runId, i)
         <==> InScope(db, kind, window, runId) && db.invocations[i].runId == runId && db.invocations[i].cap.Some?
    {
      CountsIsScope(db, kind, i);
    }
    hide Capped, InScope, Counts, Scope;
    var caps := Caps(db, runId);
    assert forall i :: i in db.invocations && db.invocations[i].runId == runId && db.invocations[i].cap.Some? ==>
      db.invocations[i].cap.value in caps;
    if |caps| > 0 {
      var top := MaxOf(caps);
      var i :| i in db.invocations && db.invocations[i].runId == runId && db.invocations[i].cap == Some(top);
    }
  }

  predicate Capped(db: Db, kind: RunKind, budget: Option<Projection>, runId: string, i: string) {
    Counts(db, kind, budget, i) && db.invocations[i].runId == runId && db.invocations[i].cap.Some?
  }

  predicate EventOfKind(db: Db, kind: RunKind, e: EventRow) {
    e.runId in db.runs && db.runs[e.runId].kind == kind
  }

  /** The latest event is the latest of the kind's runs, and null when they have none. */
  lemma EventField(db: Db, kind: RunKind, now: int, staleAfter: int)
    ensures var latest := Summarize(db, kind, now, staleAfter).latestEvent;
            && (latest.None? <==> forall e :: e in db.events ==> !EventOfKind(db, kind, e))
            && (latest.Some? ==> exists e :: e in db.events && EventOfKind(db, kind, e) && e.at == latest.value)
            && (latest.Some? ==> forall e :: e in db.events && EventOfKind(db, kind, e) ==> e.at <= latest.value)
  {
    SetsBehind(db, kind, now, staleAfter);
    hide Summarize;
    var times := set e | e in db.events && InScope(db, kind, None, e.runId) :: e.at;
    assert forall e :: e in db.events ==> (EventOfKind(db, kind, e) <==> InScope(db, kind, None, e.runId));
    assert forall e :: e in db.events && EventOfKind(db, kind, e) ==> e.at in times;
    if |times| > 0 {
      var top := MaxOf(times);
      var e :| e in db.events && InScope(db, kind, None, e.runId) && e.at == top;
    } else {
      assert times == {};
    }
  }
}
