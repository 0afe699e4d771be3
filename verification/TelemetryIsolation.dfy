/**
 The whole summary of one run kind, and the proof that the other kind cannot influence it.
 */
module TelemetryIsolation {
  import opened Results
  import opened Timestamps
  import opened TelemetryStore
  import opened TelemetryInvariant
  import opened TelemetryHistory
  import opened TelemetrySummary

  // ---- the remaining queries of `summary` ----

  /** ORDER BY observed_at DESC, projection_sequence DESC LIMIT 1: the place of that row. */
  function LatestIndex(ps: seq<Projection>, kind: RunKind): (r: Option<nat>)
    ensures r.Some? ==> r.value < |ps|
  {
    if ps == [] then None
    else
      var n := |ps| - 1;
      var r := LatestIndex(ps[..n], kind);
      if ps[n].kind != kind || (r.Some? && ps[r.value].at > ps[n].at) then r else Some(n)
  }

  function LatestBudget(ps: seq<Projection>, kind: RunKind): Option<Projection> {
    var k := LatestIndex(ps, kind);
    if k.None? then None else Some(ps[k.value])
  }

  /** The query answers with the last of the rows of the kind in the order of time, then of insertion. */
  lemma {:induction false} LatestBudgetIsLatest(ps: seq<Projection>, kind: RunKind)
    ensures LatestIndex(ps, kind).None? <==> forall j :: 0 <= j < |ps| ==> ps[j].kind != kind
    ensures var k := LatestIndex(ps, kind);
            k.Some? ==> ps[k.value].kind == kind && forall j :: 0 <= j < |ps| && ps[j].kind == kind ==>
              ps[j].at < ps[k.value].at || (ps[j].at == ps[k.value].at && j <= k.value)
  {
    if ps != [] {
      LatestBudgetIsLatest(ps[..|ps| - 1], kind);
    }
  }

  lemma SomeElement<T>(s: set<T>) returns (x: T)
    requires |s| > 0
    ensures x in s
  {
    x :| x in s;
  }

  lemma {:induction false} MaxExists(s: set<int>)
    requires |s| > 0
    ensures exists m :: m in s && forall x :: x in s ==> x <= m
  {
    var y := SomeElement(s);
    var rest := s - {y};
    if |rest| > 0 {
      MaxExists(rest);
      var m :| m in rest && forall x :: x in rest ==> x <= m;
      var top := if y > m then y else m;
      assert top in s && forall x :: x in s ==> x == y || x in rest;
    } else {
      assert forall x :: x in s ==> x == y || x in rest;
    }
  }

  function MaxOf(s: set<int>): (m: int)
    requires |s| > 0
    ensures m in s && forall x :: x in s ==> x <= m
  {
    MaxExists(s);
    var m :| m in s && forall x :: x in s ==> x <= m;
    m
  }

  function LatestEvent(db: Db, kind: RunKind): Option<int> {
    var times := set e | e in db.events && InScope(db, kind, None, e.runId) :: e.at;
    if |times| == 0 then None else Some(MaxOf(times))
  }

  function RunIds(db: Db, kind: RunKind, terminal: bool): set<string> {
    set r | r in db.runs && db.runs[r].kind == kind && db.runs[r].terminal == terminal
  }

  function Finished(db: Db, kind: RunKind, window: Option<string>): set<string> {
    set i | i in db.invocations && InScope(db, kind, window, db.invocations[i].runId)
        && TerminalModel(db.invocations[i].state)
  }

  function FinishedWith(db: Db, kind: RunKind, window: Option<string>, status: UsageStatus): set<string> {
    set i | i in Finished(db, kind, window) && db.invocations[i].usageStatus == status
  }

  function Active(db: Db, kind: RunKind): set<string> {
    set i | i in db.invocations && InScope(db, kind, None, db.invocations[i].runId)
        && !TerminalModel(db.invocations[i].state)
  }

  function Mismatches(db: Db, kind: RunKind): set<string> {
    set i | i in db.invocations && InScope(db, kind, None, db.invocations[i].runId)
        && db.invocations[i].identity.Mismatch?
  }

  function Caps(db: Db, runId: string): set<int> {
    set i | i in db.invocations && db.invocations[i].runId == runId && db.invocations[i].cap.Some? ::
        db.invocations[i].cap.value
  }

  /** The rows of the cap subquery: the largest cap of each capped run. */
  function RunCaps(db: Db, kind: RunKind, window: Option<string>): map<string, int> {
    map r | r in db.runs && InScope(db, kind, window, r) && |Caps(db, r)| > 0 :: MaxOf(Caps(db, r))
  }

  datatype BeatStatus = NotApplicable | UnknownBeat | Current | Stale

  function HeartbeatStatus(i: Invocation, now: int, staleAfter: int): BeatStatus {
    if TerminalModel(i.state) then NotApplicable
    else
      var beats := (if i.controllerBeat.Some? then {i.controllerBeat.value} else {})
                   + (if i.adapterBeat.Some? then {i.adapterBeat.value} else {});
      if |beats| == 0 then UnknownBeat
      else if now - MaxOf(beats) <= staleAfter * SECOND then Current else Stale
  }

  function StaleModels(db: Db, kind: RunKind, now: int, staleAfter: int): set<string> {
    set i | i in Active(db, kind) && HeartbeatStatus(db.invocations[i], now, staleAfter).Stale?
  }

  datatype Coverage = NoneFinished | Complete | NotCovered | Incomplete

  function CoverageStatus(finished: nat, exact: nat): Coverage {
    if finished == 0 then NoneFinished
    else if exact == finished then Complete
    else if exact == 0 then NotCovered
    else Incomplete
  }

  function AtLeastZero(n: int): nat {
    if n < 0 then 0 else n
  }

  function Spendable(p: Projection): Option<nat> {
    if p.remaining.None? then None else Some(AtLeastZero(p.remaining.value - p.reserve))
  }

  function Available(p: Projection): Option<nat> {
    if p.remaining.None? then None else Some(AtLeastZero(AtLeastZero(p.remaining.value - p.reserve) - p.reserved))
  }

  datatype Summary = Summary(
    latestEvent: Option<int>, activeRuns: nat, terminalRuns: nat, budget: Option<Projection>,
    spendable: Option<nat>, available: Option<nat>, known: Option<int>, estimated: Option<int>,
    caps: map<string, int>, finished: nat, exact: nat, unknown: nat, coverage: Coverage,
    activeModels: nat, stale: nat, mismatches: nat)

  function Scope(db: Db, kind: RunKind): Option<string> {
    var budget := LatestBudget(db.projections, kind);
    if budget.None? then None else Some(budget.value.window)
  }

  function Summarize(db: Db, kind: RunKind, now: int, staleAfter: int): Summary {
    var budget := LatestBudget(db.projections, kind);
    var window := Scope(db, kind);
    var (finished, exact) := (|Finished(db, kind, window)|, |FinishedWith(db, kind, window, Exact)|);
    Summary(LatestEvent(db, kind), |RunIds(db, kind, false)|, |RunIds(db, kind, true)|, budget,
            if budget.None? then None else Spendable(budget.value),
            if budget.None? then None else Available(budget.value),
            Tokens(db, kind, window, true), Tokens(db, kind, window, false), RunCaps(db, kind, window),
            finished, exact, |FinishedWith(db, kind, window, Unavailable)|, CoverageStatus(finished, exact),
            |Active(db, kind)|, |StaleModels(db, kind, now, staleAfter)|, |Mismatches(db, kind)|)
  }

  predicate FullyExact(db: Db, i: string) {
    HasRows(db.usage, i) && AllRows(db.usage, i, true)
  }

  lemma ExactMeansReceipts(db: Db, kind: RunKind, window: Option<string>)
    requires UsageClassified(db)
    ensures forall i :: i in Finished(db, kind, window) ==>
        (i in FinishedWith(db, kind, window, Exact) <==> FullyExact(db, i))
    ensures |FinishedWith(db, kind, window, Exact)|
        + |FinishedWith(db, kind, window, Unavailable)| <= |Finished(db, kind, window)|
  {
    var done := Finished(db, kind, window);
    var exact, unknown := FinishedWith(db, kind, window, Exact), FinishedWith(db, kind, window, Unavailable);
    forall i | i in done
      ensures i in exact <==> FullyExact(db, i)
    {
      assert db.invocations[i].usageStatus == Classified(db.usage, i, true);
    }
    assert exact !! unknown;
    SubsetSize(exact + unknown, done);
  }

  /** Coverage says what it seems to say about the receipts of the finished invocations in scope. */
  lemma CoverageMeansReceipts(db: Db, kind: RunKind, now: int, staleAfter: int)
    requires Inv(db)
    ensures var s := Summarize(db, kind, now, staleAfter);
            var done := Finished(db, kind, Scope(db, kind));
            && s.exact + s.unknown <= s.finished
            && (s.coverage.Complete? <==> |done| > 0 && forall i :: i in done ==> FullyExact(db, i))
            && (s.coverage.NotCovered? <==> |done| > 0 && forall i :: i in done ==> !FullyExact(db, i))
  {
    var window := Scope(db, kind);
    var done, exact := Finished(db, kind, window), FinishedWith(db, kind, window, Exact);
    ExactMeansReceipts(db, kind, window);
    assert exact <= done;
    hide Inv, FinishedWith, FullyExact, LatestBudget, Tokens, RunCaps, LatestEvent;
    SubsetSize(exact, done);
    SubsetSize({}, exact);
  }

  lemma {:induction false} SubsetSize<T>(a: set<T>, b: set<T>)
    requires a <= b
    ensures |a| <= |b| && (|a| == |b| <==> a == b)
  {
    if a != {} {
      var x :| x in a;
      SubsetSize(a - {x}, b - {x});
    }
  }

  // ---- one kind only ----

  function Filter<T(!new)>(s: seq<T>, keep: T -> bool): (r: seq<T>)
    ensures forall x :: x in r <==> x in s && keep(x)
  {
    if s == [] then [] else Filter(s[..|s| - 1], keep) + if keep(s[|s| - 1]) then [s[|s| - 1]] else []
  }

  lemma {:induction false} FilterAgrees<T(!new)>(s: seq<T>, p: T -> bool, q: T -> bool)
    requires forall x :: x in s ==> p(x) == q(x)
    ensures Filter(s, p) == Filter(s, q)
  {
    if s != [] {
      FilterAgrees(s[..|s| - 1], p, q);
    }
  }

  /** Appended rows that are not kept leave the filtered table as it was. */
  lemma {:induction false} FilterOfMore<T(!new)>(s: seq<T>, more: seq<T>, p: T -> bool, q: T -> bool)
    requires s <= more && forall k :: |s| <= k < |more| ==> !q(more[k])
    requires forall x :: x in s ==> p(x) == q(x)
    ensures Filter(more, q) == Filter(s, p)
    decreases |more|
  {
    if |more| > |s| {
      FilterOfMore(s, more[..|more| - 1], p, q);
    } else {
      assert s == more;
      FilterAgrees(s, p, q);
    }
  }

  /** The tables as they would be without the runs, and everything attached to them, of the other kind. */
  function Only(db: Db, kind: RunKind): Db {
    Db(map r | r in db.runs && db.runs[r].kind == kind :: db.runs[r],
       Filter(db.events, (e: EventRow) => InScope(db, kind, None, e.runId)),
       map i | i in db.invocations && InScope(db, kind, None, db.invocations[i].runId) :: db.invocations[i],
       Filter(db.usage, (u: UsageRow) => ReceiptInScope(db, kind, None, u)),
       Filter(db.projections, (p: Projection) => p.kind == kind))
  }

  /** The last element of a filtered sequence, and what is before it. */
  lemma FilterLast<T(!new)>(s: seq<T>, keep: T -> bool)
    requires s != []
    ensures var (front, last) := (s[..|s| - 1], s[|s| - 1]);
            if keep(last) then Filter(s, keep) == Filter(front, keep) + [last]
                && Filter(s, keep)[..|Filter(front, keep)|] == Filter(front, keep)
            else Filter(s, keep) == Filter(front, keep)
  {
  }

  lemma LatestOfMore(ps: seq<Projection>, kind: RunKind)
    requires ps != []
    ensures var (front, last) := (LatestBudget(ps[..|ps| - 1], kind), ps[|ps| - 1]);
            LatestBudget(ps, kind)
            == if last.kind != kind || (front.Some? && front.value.at > last.at) then front else Some(last)
  {
  }

  lemma {:induction false} BudgetOfOnly(ps: seq<Projection>, kind: RunKind, keep: Projection -> bool)
    requires forall p :: keep(p) == (p.kind == kind)
    ensures LatestBudget(Filter(ps, keep), kind) == LatestBudget(ps, kind)
  {
    if ps != [] {
      BudgetOfOnly(ps[..|ps| - 1], kind, keep);
      FilterLast(ps, keep);
      LatestOfMore(ps, kind);
      if keep(ps[|ps| - 1]) {
        LatestOfMore(Filter(ps, keep), kind);
      }
      hide Filter, LatestBudget;
    }
  }

  lemma {:induction false} SumOfFilter(us: seq<UsageRow>, keep: UsageRow -> bool, p: UsageRow -> bool)
    requires forall u :: p(u) ==> keep(u)
    ensures SumWhere(Filter(us, keep), p) == SumWhere(us, p)
  {
    if us != [] {
      SumOfFilter(us[..|us| - 1], keep, p);
      FilterLast(us, keep);
    }
  }

  lemma TokensOfOnly(db: Db, kind: RunKind, window: Option<string>, exact: bool)
    ensures Tokens(Only(db, kind), kind, window, exact) == Tokens(db, kind, window, exact)
  {
    var only := Only(db, kind);
    SumAgrees(only.usage, Counted(only, kind, window, exact), Counted(db, kind, window, exact));
    SumOfFilter(db.usage, (u: UsageRow) => ReceiptInScope(db, kind, None, u), Counted(db, kind, window, exact));
  }

  lemma CapsOfOnly(db: Db, kind: RunKind, window: Option<string>)
    ensures RunCaps(Only(db, kind), kind, window) == RunCaps(db, kind, window)
  {
    forall r
      ensures InScope(Only(db, kind), kind, window, r) <==> InScope(db, kind, window, r)
      ensures InScope(db, kind, window, r) ==> Caps(Only(db, kind), r) == Caps(db, r)
    {
      RunOfOnly(db, kind, window, r);
    }
    hide Only;
    SameCaps(Only(db, kind), db, kind, window);
  }

  lemma RunOfOnly(db: Db, kind: RunKind, window: Option<string>, r: string)
    ensures InScope(Only(db, kind), kind, window, r) <==> InScope(db, kind, window, r)
    ensures InScope(db, kind, window, r) ==> Caps(Only(db, kind), r) == Caps(db, r)
  {
    if InScope(db, kind, window, r) {
      CapsOfRun(db, kind, r);
    }
    hide Filter, Caps;
  }

  lemma SameCaps(a: Db, b: Db, kind: RunKind, window: Option<string>)
    requires forall r :: InScope(a, kind, window, r) <==> InScope(b, kind, window, r)
    requires forall r :: InScope(b, kind, window, r) ==> Caps(a, r) == Caps(b, r)
    ensures RunCaps(a, kind, window) == RunCaps(b, kind, window)
  {
    hide Caps;
    var x, y := RunCaps(a, kind, window), RunCaps(b, kind, window);
    forall r
      ensures r in x <==> r in y
      ensures r in x ==> x[r] == y[r]
    {
      assert InScope(a, kind, window, r) <==> InScope(b, kind, window, r);
    }
  }

  lemma CapsOfRun(db: Db, kind: RunKind, runId: string)
    requires InScope(db, kind, None, runId)
    ensures Caps(Only(db, kind), runId) == Caps(db, runId)
  {
    var only := Only(db, kind);
    assert forall i :: i in db.invocations && db.invocations[i].runId == runId ==> i in only.invocations;
  }

  lemma EventsOfOnly(db: Db, kind: RunKind)
    ensures LatestEvent(Only(db, kind), kind) == LatestEvent(db, kind)
  {
    var only := Only(db, kind);
    assert (set e | e in only.events && InScope(only, kind, None, e.runId) :: e.at)
        == (set e | e in db.events && InScope(db, kind, None, e.runId) :: e.at);
  }

  lemma SetsOfOnly(db: Db, kind: RunKind, window: Option<string>)
    ensures var only := Only(db, kind);
            && RunIds(only, kind, true) == RunIds(db, kind, true)
            && RunIds(only, kind, false) == RunIds(db, kind, false)
            && Finished(only, kind, window) == Finished(db, kind, window)
            && FinishedWith(only, kind, window, Exact) == FinishedWith(db, kind, window, Exact)
            && FinishedWith(only, kind, window, Unavailable) == FinishedWith(db, kind, window, Unavailable)
            && Active(only, kind) == Active(db, kind) && Mismatches(only, kind) == Mismatches(db, kind)
  {
  }

  lemma StaleOfOnly(db: Db, kind: RunKind, now: int, staleAfter: int)
    ensures StaleModels(Only(db, kind), kind, now, staleAfter) == StaleModels(db, kind, now, staleAfter)
  {
  }

  /** The summary of a kind is a function of that kind's rows alone. */
  lemma SummaryReadsOneKind(db: Db, kind: RunKind, now: int, staleAfter: int)
    ensures Summarize(Only(db, kind), kind, now, staleAfter) == Summarize(db, kind, now, staleAfter)
  {
    var window := Scope(db, kind);
    BudgetOfOnly(db.projections, kind, (p: Projection) => p.kind == kind);
    assert Scope(Only(db, kind), kind) == window;
    TokensOfOnly(db, kind, window, true);
    TokensOfOnly(db, kind, window, false);
    CapsOfOnly(db, kind, window);
    EventsOfOnly(db, kind);
    SetsOfOnly(db, kind, window);
    StaleOfOnly(db, kind, now, staleAfter);
    assert LatestBudget(Only(db, kind).projections, kind) == LatestBudget(db.projections, kind);
    hide Only, LatestBudget, Scope, Tokens, RunCaps, LatestEvent, Finished, FinishedWith,
        Active, Mismatches, RunIds, StaleModels;
  }

  // ---- a call about one kind does not touch the other ----

  /** The call is about a run, or a projection, of the kind. */
  predicate About(db: Db, r: Request, kind: RunKind) {
    match r
    case StartRun(_, k, _, _, _, _, _, _) => k == kind
    case RecordProjection(p) => p.kind == kind
    case _ => RunOf(db, r).Some? && RunOf(db, r).value in db.runs && db.runs[RunOf(db, r).value].kind == kind
  }

  /** What a call leaves alone: every run but its own, and the rows of the other runs. */
  ghost predicate Confined(db: Db, next: Db, runId: Option<string>) {
    && (forall r :: Some(r) != runId ==>
        (r in next.runs <==> r in db.runs) && (r in db.runs ==> next.runs[r] == db.runs[r]))
    && (forall i :: i in next.invocations && Some(next.invocations[i].runId) != runId ==>
          i in db.invocations && next.invocations[i] == db.invocations[i])
    && (forall i :: i in db.invocations ==>
        i in next.invocations && next.invocations[i].runId == db.invocations[i].runId)
    && db.events <= next.events && db.usage <= next.usage && db.projections <= next.projections
    && (forall k :: |db.events| <= k < |next.events| ==> Some(next.events[k].runId) == runId)
    && (forall k :: |db.usage| <= k < |next.usage| ==>
          next.usage[k].invocationId in next.invocations
              && Some(next.invocations[next.usage[k].invocationId].runId) == runId)
  }

  lemma RunRequestConfined(db: Db, r: Request)
    requires RunRequest(r)
    ensures Confined(db, Apply(db, r), RunOf(db, r))
  {
  }

  lemma RowRequestConfined(db: Db, r: Request)
    requires r.RecordProjection? || r.RecordUsage?
    ensures Confined(db, Apply(db, r), RunOf(db, r))
  {
  }

  lemma ModelRequestConfined(db: Db, r: Request)
    requires r.StartModel? || r.CheckIn? || r.Heartbeat? || r.FinishModel?
    ensures Confined(db, Apply(db, r), RunOf(db, r))
  {
  }

  lemma ApplyConfined(db: Db, r: Request)
    ensures Confined(db, Apply(db, r), RunOf(db, r))
  {
    hide Apply, Confined, RunOf;
    if RunRequest(r) {
      RunRequestConfined(db, r);
    } else if r.RecordProjection? || r.RecordUsage? {
      RowRequestConfined(db, r);
    } else {
      ModelRequestConfined(db, r);
    }
  }

  /** An accepted call names a run of its kind, before and after; a projection may name none. */
  lemma SubjectKeepsKind(db: Db, r: Request, kind: RunKind)
    requires About(db, r, kind) && Step(db, r).Some? && ProjectionsBound(db)
    ensures var next := Apply(db, r);
            && (RunOf(db, r).Some? ==> RunOf(db, r).value in next.runs && next.runs[RunOf(db, r).value].kind == kind)
            && (RunOf(db, r).Some? && RunOf(db, r).value in db.runs ==> db.runs[RunOf(db, r).value].kind == kind)
            && forall k :: |db.projections| <= k < |next.projections| ==> next.projections[k].kind == kind
  {
  }

  /** A confined change whose run, before and after, is of another kind. */
  ghost predicate Elsewhere(db: Db, next: Db, runId: Option<string>, other: RunKind) {
    && Confined(db, next, runId) && References(db)
    && (runId.Some? ==> !InScope(next, other, None, runId.value) && !InScope(db, other, None, runId.value))
    && forall k :: |db.projections| <= k < |next.projections| ==> next.projections[k].kind != other
  }

  lemma ScopeUntouched(db: Db, next: Db, runId: Option<string>, other: RunKind)
    requires Elsewhere(db, next, runId, other)
    ensures forall x :: InScope(next, other, None, x) <==> InScope(db, other, None, x)
  {
  }

  lemma RunUntouched(db: Db, next: Db, runId: Option<string>, other: RunKind, r: string)
    requires Elsewhere(db, next, runId, other)
    ensures InScope(next, other, None, r) <==> InScope(db, other, None, r)
    ensures InScope(db, other, None, r) ==> next.runs[r] == db.runs[r]
  {
  }

  lemma RunsUntouched(db: Db, next: Db, runId: Option<string>, other: RunKind)
    requires Elsewhere(db, next, runId, other)
    ensures Only(next, other).runs == Only(db, other).runs
  {
    hide Elsewhere, Filter, ReceiptInScope;
    forall r
      ensures InScope(next, other, None, r) <==> InScope(db, other, None, r)
      ensures InScope(db, other, None, r) ==> next.runs[r] == db.runs[r]
    {
      RunUntouched(db, next, runId, other, r);
    }
  }

  lemma InvocationUntouched(db: Db, next: Db, runId: Option<string>, other: RunKind, i: string)
    requires Elsewhere(db, next, runId, other)
    requires forall x :: InScope(next, other, None, x) <==> InScope(db, other, None, x)
    ensures (i in next.invocations && InScope(next, other, None, next.invocations[i].runId))
       <==> (i in db.invocations && InScope(db, other, None, db.invocations[i].runId))
    ensures i in db.invocations && InScope(db, other, None, db.invocations[i].runId) ==>
        next.invocations[i] == db.invocations[i]
  {
    hide InScope;
    if i in next.invocations && Some(next.invocations[i].runId) != runId {
      assert i in db.invocations && next.invocations[i] == db.invocations[i];
    }
  }

  lemma InvocationsUntouched(db: Db, next: Db, runId: Option<string>, other: RunKind)
    requires Elsewhere(db, next, runId, other)
    ensures Only(next, other).invocations == Only(db, other).invocations
  {
    ScopeUntouched(db, next, runId, other);
    hide InScope, Filter, ReceiptInScope;
    forall i
      ensures (i in next.invocations && InScope(next, other, None, next.invocations[i].runId))
         <==> (i in db.invocations && InScope(db, other, None, db.invocations[i].runId))
      ensures i in db.invocations && InScope(db, other, None, db.invocations[i].runId) ==>
          next.invocations[i] == db.invocations[i]
    {
      InvocationUntouched(db, next, runId, other, i);
    }
    hide Elsewhere;
  }

  lemma EventsUntouched(db: Db, next: Db, runId: Option<string>, other: RunKind)
    requires Elsewhere(db, next, runId, other)
    ensures Only(next, other).events == Only(db, other).events
    ensures Only(next, other).projections == Only(db, other).projections
  {
    ScopeUntouched(db, next, runId, other);
    var p := (e: EventRow) => InScope(db, other, None, e.runId);
    var q := (e: EventRow) => InScope(next, other, None, e.runId);
    FilterOfMore(db.events, next.events, p, q);
    var kept := (p: Projection) => p.kind == other;
    FilterOfMore(db.projections, next.projections, kept, kept);
  }

  lemma UsageUntouched(db: Db, next: Db, runId: Option<string>, other: RunKind)
    requires Elsewhere(db, next, runId, other)
    ensures Only(next, other).usage == Only(db, other).usage
  {
    ScopeUntouched(db, next, runId, other);
    var p := (u: UsageRow) => ReceiptInScope(db, other, None, u);
    var q := (u: UsageRow) => ReceiptInScope(next, other, None, u);
    forall u | u in db.usage
      ensures p(u) == q(u)
    {
      assert u.invocationId in db.invocations;
    }
    FilterOfMore(db.usage, next.usage, p, q);
  }

  /** The rows of the other kind are the same before and after. */
  lemma OtherKindUntouched(db: Db, r: Request, kind: RunKind, other: RunKind)
    requires About(db, r, kind) && Step(db, r).Some? && kind != other && References(db) && ProjectionsBound(db)
    ensures Only(Apply(db, r), other) == Only(db, other)
  {
    var next, runId := Apply(db, r), RunOf(db, r);
    ApplyConfined(db, r);
    SubjectKeepsKind(db, r, kind);
    assert Elsewhere(db, next, runId, other);
    RunsUntouched(db, next, runId, other);
    InvocationsUntouched(db, next, runId, other);
    EventsUntouched(db, next, runId, other);
    UsageUntouched(db, next, runId, other);
    hide *;
  }

  /**
   An accepted call about a training run leaves the production summary as it was, and the other way
   round; a rejected one changes nothing at all.
   */
  lemma SummaryIsIsolated(requests: seq<Request>, r: Request, kind: RunKind, other: RunKind, now: int, staleAfter: int)
    requires About(Run(requests), r, kind) && kind != other
    ensures Summarize(Run(requests + [r]), other, now, staleAfter) == Summarize(Run(requests), other, now, staleAfter)
  {
    var db := Run(requests);
    EveryRunKeepsInv(requests);
    assert (requests + [r])[..|requests|] == requests;
    assert Run(requests + [r]) == Apply(db, r) && (Step(db, r).None? ==> Apply(db, r) == db);
    assert References(db) && ProjectionsBound(db);
    hide *;
    if Step(db, r).Some? {
      OtherKindUntouched(db, r, kind, other);
      SummaryReadsOneKind(db, other, now, staleAfter);
      SummaryReadsOneKind(Apply(db, r), other, now, staleAfter);
    }
  }
}
