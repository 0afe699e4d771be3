/**
 The budget gate and the transactional reservation ledger.  The safety multiplier is a real
 number, so that its product with an estimate is rounded up exactly.
 */
module Budgets {
  import opened Results
  import opened RunModels
  import opened Timestamps
  import opened BudgetWindows

  const COMPLETION_GRACE_SECONDS := 7200

  datatype Snapshot = Snapshot(spendable: Option<int>, observedAt: int, resetsAt: Option<int>)

  datatype BudgetError =
    | NegativeRemaining | AboveMaximum | UnknownQuota | StaleSnapshot | WindowChanged
    | TooCloseToReset | NotEnoughTokens

  datatype Row = Row(runId: string, windowKey: string, tokens: nat, status: string, createdAt: Option<int>)

  datatype Receipt = Receipt(runId: string, windowKey: string, tokens: nat, remainingAfter: int)

  function Max(a: int, b: int): int {
    if a >= b then a else b
  }

  function Ceil(x: real): int {
    -(-x).Floor
  }

  /** `BudgetGate.snapshot` for a value that is already read from its source. */
  function TakeSnapshot(c: Config, remaining: Option<int>, observedAt: int): (r: Result<Snapshot, BudgetError>)
    ensures r.Ok? && r.value.spendable.Some? ==>
      && 0 <= r.value.spendable.value
      && (c.maximumTokens.Some? ==> r.value.spendable.value <= Max(0, c.maximumTokens.value - c.reserveTokens))
  {
    if remaining.Some? && remaining.value < 0 then Err(NegativeRemaining)
    else if remaining.Some? && c.maximumTokens.Some? && remaining.value > c.maximumTokens.value then Err(AboveMaximum)
    else
      var spendable := if remaining.Some? then Some(Max(0, remaining.value - c.reserveTokens)) else None;
      Ok(Snapshot(spendable, observedAt, Some(NextReset(c, observedAt))))
  }

  /** When a snapshot is taken, and what can be spent of it: what remains above the reserve, if anything does. */
  lemma SnapshotExactly(c: Config, remaining: Option<int>, observedAt: int)
    ensures var r := TakeSnapshot(c, remaining, observedAt);
            && (r == Err(NegativeRemaining) <==> remaining.Some? && remaining.value < 0)
            && (r == Err(AboveMaximum) <==>
                  remaining.Some? && c.maximumTokens.Some? && remaining.value >= 0
                      && c.maximumTokens.value < remaining.value)
            && (r.Err? ==> r.error in {NegativeRemaining, AboveMaximum})
            && (r.Ok? ==> r.value.observedAt == observedAt && r.value.resetsAt == Some(NextReset(c, observedAt)))
            && (r.Ok? ==> (r.value.spendable.None? <==> remaining.None?))
            && (r.Ok? && remaining.Some? && remaining.value > c.reserveTokens ==>
                  r.value.spendable.value + c.reserveTokens == remaining.value)
            && (r.Ok? && remaining.Some? && remaining.value <= c.reserveTokens ==> r.value.spendable == Some(0))
  {
  }

  /** What one run reserves: its estimate times the multiplier, rounded up. */
  function Amount(c: Config, estimate: nat): (a: nat)
    requires ValidConfig(c)
    ensures estimate <= a
    ensures estimate as real * c.safetyMultiplier <= a as real < estimate as real * c.safetyMultiplier + 1.0
  {
    assert estimate as real * c.safetyMultiplier >= estimate as real;
    Ceil(estimate as real * c.safetyMultiplier)
  }

  /** `SELECT COALESCE(SUM(reserved_tokens), 0) ... AND status != 'released'`. */
  function ReservedTokens(rows: seq<Row>, windowKey: string): nat {
    if rows == [] then 0
    else
      var last := rows[|rows| - 1];
      ReservedTokens(rows[..|rows| - 1], windowKey)
      + if last.windowKey == windowKey && last.status != "released" then last.tokens else 0
  }

  predicate HasRun(rows: seq<Row>, runId: string) {
    exists i :: 0 <= i < |rows| && rows[i].runId == runId
  }

  /** The checks that `reserve` makes before it opens its transaction. */
  function Precheck(c: Config, snapshot: Snapshot, now: int): (r: Result<(), BudgetError>)
    requires HasWindow(c, snapshot.observedAt) && HasWindow(c, now)
    ensures r.Ok? ==> snapshot.spendable.Some? && snapshot.resetsAt.Some?
  {
    if snapshot.spendable.None? then Err(UnknownQuota)
    else if now - snapshot.observedAt < -60 * SECOND || now - snapshot.observedAt > 300 * SECOND then Err(StaleSnapshot)
    else if WindowKey(c, now) != WindowKey(c, snapshot.observedAt) then Err(WindowChanged)
    else if snapshot.resetsAt.None?
         || snapshot.resetsAt.value - now < (c.maxRunSeconds + c.resetSafetySeconds) * SECOND then Err(TooCloseToReset)
    else Ok(())
  }

  /** The row that `reserve` inserts, if it inserts one. */
  function Admitted(c: Config, rows: seq<Row>, runId: string, snapshot: Snapshot, estimate: nat, now: int): Option<Row>
    requires ValidConfig(c) && HasWindow(c, snapshot.observedAt) && HasWindow(c, now)
  {
    if Precheck(c, snapshot, now).Err? || HasRun(rows, runId) then None
    else
      var key := WindowKey(c, snapshot.observedAt);
      var amount := Amount(c, estimate);
      var available := Max(0, snapshot.spendable.value - ReservedTokens(rows, key));
      if available < Max(c.minimumSpendable, amount) then None
      else Some(Row(runId, key, amount, "reserved", Some(snapshot.observedAt)))
  }

  /** The four refusals before the transaction, in the order in which they are decided. */
  lemma PrecheckExactly(c: Config, snapshot: Snapshot, now: int)
    requires HasWindow(c, snapshot.observedAt) && HasWindow(c, now)
    ensures var r := Precheck(c, snapshot, now);
            var recent := snapshot.observedAt - 60 * SECOND <= now <= snapshot.observedAt + 300 * SECOND;
            var same := WindowStart(c, now) == WindowStart(c, snapshot.observedAt);
            var late := snapshot.resetsAt.None? ||
              now + c.maxRunSeconds * SECOND + c.resetSafetySeconds * SECOND > snapshot.resetsAt.value;
            && (r == Err(UnknownQuota) <==> snapshot.spendable.None?)
            && (r == Err(StaleSnapshot) <==> snapshot.spendable.Some? && !recent)
            && (r == Err(WindowChanged) <==> snapshot.spendable.Some? && recent && !same)
            && (r == Err(TooCloseToReset) <==> snapshot.spendable.Some? && recent && same && late)
            && (r.Ok? <==> snapshot.spendable.Some? && recent && same && !late)
  {
    KeyNamesWindow(c, now, snapshot.observedAt);
    hide WindowKey, WindowStart, HasWindow;
  }

  /**
   Who is admitted, in tokens: a new run that passed the checks, when what is free of the snapshot
   covers both the minimum and its estimate times the multiplier.  And what it then holds.
   */
  lemma AdmissionExactly(c: Config, rows: seq<Row>, runId: string, snapshot: Snapshot, estimate: nat, now: int)
    requires ValidConfig(c) && HasWindow(c, snapshot.observedAt) && HasWindow(c, now)
    requires snapshot.spendable.Some?
    ensures var row := Admitted(c, rows, runId, snapshot, estimate, now);
            var used := ReservedTokens(rows, WindowKey(c, snapshot.observedAt));
            var free := if snapshot.spendable.value > used then snapshot.spendable.value - used else 0;
            var need := estimate as real * c.safetyMultiplier;
            && (row.Some? <==> Precheck(c, snapshot, now).Ok? && !HasRun(rows, runId)
                               && c.minimumSpendable <= free && need <= free as real)
            && (row.Some? ==>
                  && row.value.runId == runId && row.value.windowKey == WindowKey(c, snapshot.observedAt)
                  && need <= row.value.tokens as real < need + 1.0 && row.value.tokens <= free
                  && row.value.status == "reserved" && row.value.createdAt == Some(snapshot.observedAt))
  {
    hide WindowKey, HasWindow, Precheck, HasRun, ReservedTokens;
    var used := ReservedTokens(rows, WindowKey(c, snapshot.observedAt));
    var free := Max(0, snapshot.spendable.value - used);
    CoversExactly(Amount(c, estimate), estimate as real * c.safetyMultiplier, free);
    hide Amount;
  }

  /** A whole number of tokens covers a need exactly when it covers the need rounded up. */
  lemma CoversExactly(rounded: int, need: real, free: int)
    requires need <= rounded as real < need + 1.0
    ensures rounded <= free <==> need <= free as real
  {
  }

  function AfterReserve(c: Config, rows: seq<Row>, runId: string, snapshot: Snapshot, estimate: nat, now: int): seq<Row>
    requires ValidConfig(c) && HasWindow(c, snapshot.observedAt) && HasWindow(c, now)
  {
    var row := Admitted(c, rows, runId, snapshot, estimate, now);
    if row.Some? then rows + [row.value] else rows
  }

  function AfterFinish(rows: seq<Row>, runId: string, status: string): (r: seq<Row>)
    ensures |r| == |rows|
    ensures forall i :: 0 <= i < |r| ==> r[i] == if rows[i].runId == runId then rows[i].(status := status) else rows[i]
  {
    seq(|rows|, i requires 0 <= i < |rows| => if rows[i].runId == runId then rows[i].(status := status) else rows[i])
  }

  /** A row whose controller may still be alive; a malformed or future creation time fails closed. */
  predicate Live(c: Config, row: Row, now: int) {
    row.status == "reserved" &&
    (row.createdAt.None? || row.createdAt.value > now ||
     now - row.createdAt.value <= (c.maxRunSeconds + c.resetSafetySeconds + COMPLETION_GRACE_SECONDS) * SECOND)
  }

  /** `BudgetGate.can_start`. */
  predicate CanStart(c: Config, snapshot: Snapshot, estimate: nat)
    requires ValidConfig(c)
  {
    && snapshot.spendable.Some? && snapshot.spendable.value >= Max(c.minimumSpendable, Amount(c, estimate))
    && snapshot.resetsAt.Some?
    && snapshot.resetsAt.value - snapshot.observedAt >= (c.maxRunSeconds + c.resetSafetySeconds) * SECOND
  }

  /**
   The gate and the ledger ask the same of one snapshot: a new run that the ledger admits had passed
   the gate, and one that passed is admitted at once if the window still has no reservation.
   */
  lemma GateMatchesLedger(c: Config, rows: seq<Row>, runId: string, snapshot: Snapshot, estimate: nat, now: int)
    requires ValidConfig(c) && HasWindow(c, snapshot.observedAt) && HasWindow(c, now) && !HasRun(rows, runId)
    requires snapshot.spendable.Some? ==> snapshot.spendable.value >= 0
    ensures now >= snapshot.observedAt && Admitted(c, rows, runId, snapshot, estimate, now).Some? ==>
        CanStart(c, snapshot, estimate)
    ensures now == snapshot.observedAt && ReservedTokens(rows, WindowKey(c, now)) == 0 ==>
      (CanStart(c, snapshot, estimate) <==> Admitted(c, rows, runId, snapshot, estimate, now).Some?)
  {
    hide WindowKey, HasWindow, Amount, ReservedTokens, ValidConfig, HasRun;
  }

  /** The receipt names a stored reservation of the run. */
  predicate Stored(rows: seq<Row>, runId: string, r: Receipt) {
    r.runId == runId &&
    exists i ::
        0 <= i < |rows| && rows[i].runId == runId && rows[i].windowKey == r.windowKey && rows[i].tokens == r.tokens
  }

  class BudgetLedger {
    const config: Config
    var rows: seq<Row>

    constructor (config: Config)
      ensures this.config == config && rows == []
    {
      this.config := config;
      rows := [];
    }

    /** A repeated run id gets its stored reservation back; a refusal leaves the table as it was. */
    method Reserve(runId: string, snapshot: Snapshot, estimate: nat, now: int) returns (r: Result<Receipt, BudgetError>)
      requires ValidConfig(config) && HasWindow(config, snapshot.observedAt) && HasWindow(config, now)
      modifies this`rows
      ensures rows == AfterReserve(config, old(rows), runId, snapshot, estimate, now)
      ensures r.Ok? <==> Precheck(config, snapshot, now).Ok? && HasRun(rows, runId)
      ensures r.Err? ==> r.error == if Precheck(config, snapshot, now).Err? then Precheck(config, snapshot, now).error
                                    else NotEnoughTokens
      ensures r.Ok? ==> Stored(rows, runId, r.value)
      ensures r.Ok? && !HasRun(old(rows), runId) ==>
        && r.value.windowKey == WindowKey(config, snapshot.observedAt)
        && estimate as real * config.safetyMultiplier <= r.value.tokens as real
        && ReservedTokens(rows, r.value.windowKey) == ReservedTokens(old(rows), r.value.windowKey) + r.value.tokens
      ensures r.Ok? && !HasRun(old(rows), runId) ==>
                r.value.remainingAfter == Max(0, snapshot.spendable.value - ReservedTokens(rows, r.value.windowKey))
      ensures r.Ok? && HasRun(old(rows), runId) ==>
                r.value.remainingAfter == Max(0, snapshot.spendable.value - r.value.tokens)
    {
      hide WindowKey, HasWindow, Amount, Precheck;
      var checked := Precheck(config, snapshot, now);
      if checked.Err? {
        return Err(checked.error);
      }
      var key := WindowKey(config, snapshot.observedAt);
      var amount := Amount(config, estimate);
      var i := 0;
      while i < |rows|
        invariant 0 <= i <= |rows|
        invariant forall k :: 0 <= k < i ==> rows[k].runId != runId
      {
        if rows[i].runId == runId {
          return Ok(Receipt(runId, rows[i].windowKey, rows[i].tokens,
                            Max(0, snapshot.spendable.value - rows[i].tokens)));
        }
        i := i + 1;
      }
      var available := Max(0, snapshot.spendable.value - ReservedTokens(rows, key));
      if available < Max(config.minimumSpendable, amount) {
        return Err(NotEnoughTokens);
      }
      ghost var before := rows;
      rows := rows + [Row(runId, key, amount, "reserved", Some(snapshot.observedAt))];
      assert rows[|before|].runId == runId;
      AppendAddsTokens(before, rows[|before|], key);
      r := Ok(Receipt(runId, key, amount, available - amount));
    }

    method Finish(runId: string, status: string)
      modifies this`rows
      ensures rows == AfterFinish(old(rows), runId, status)
    {
      var i := 0;
      ghost var before := rows;
      while i < |rows|
        invariant 0 <= i <= |rows| == |before|
        invariant forall k :: 0 <= k < |rows| ==>
          rows[k] == if k < i then AfterFinish(before, runId, status)[k] else before[k]
      {
        if rows[i].runId == runId {
          rows := rows[i := rows[i].(status := status)];
        }
        i := i + 1;
      }
    }

    method ActiveRunIds(now: int) returns (live: set<string>)
      ensures live == set i | 0 <= i < |rows| && Live(config, rows[i], now) :: rows[i].runId
    {
      live := {};
      var i := 0;
      while i < |rows|
        invariant 0 <= i <= |rows|
        invariant live == set k | 0 <= k < i && Live(config, rows[k], now) :: rows[k].runId
      {
        if Live(config, rows[i], now) {
          live := live + {rows[i].runId};
        }
        i := i + 1;
      }
    }
  }

  // ---- conservation over every interleaving ----

  datatype Step =
    | Reserve(runId: string, snapshot: Snapshot, estimate: nat, now: int)
    | Finish(runId: string, stage: RunStage)

  predicate StepInRange(c: Config, s: Step) {
    s.Reserve? ==> HasWindow(c, s.snapshot.observedAt) && HasWindow(c, s.now)
  }

  function Apply(c: Config, rows: seq<Row>, s: Step): seq<Row>
    requires ValidConfig(c) && StepInRange(c, s)
  {
    match s
    case Reserve(runId, snapshot, estimate, now) => AfterReserve(c, rows, runId, snapshot, estimate, now)
    case Finish(runId, stage) => AfterFinish(rows, runId, StageValue(stage))
  }

  function Run(c: Config, steps: seq<Step>): seq<Row>
    requires ValidConfig(c) && forall i :: 0 <= i < |steps| ==> StepInRange(c, steps[i])
  {
    if steps == [] then [] else Apply(c, Run(c, steps[..|steps| - 1]), steps[|steps| - 1])
  }

  /** The largest spendable value with which a run was admitted to the window. */
  function LargestAdmitted(c: Config, steps: seq<Step>, windowKey: string): nat
    requires ValidConfig(c) && forall i :: 0 <= i < |steps| ==> StepInRange(c, steps[i])
  {
    if steps == [] then 0
    else
      var (front, s) := (steps[..|steps| - 1], steps[|steps| - 1]);
      var before := LargestAdmitted(c, front, windowKey);
      assert StepInRange(c, s);
      if s.Reserve? && Admitted(c, Run(c, front), s.runId, s.snapshot, s.estimate, s.now).Some?
         && WindowKey(c, s.snapshot.observedAt) == windowKey
      then Max(before, s.snapshot.spendable.value) else before
  }

  /** What the snapshot of a step had to spend; nothing for a step without one. */
  function Spendable(s: Step): int {
    if s.Reserve? && s.snapshot.spendable.Some? then s.snapshot.spendable.value else 0
  }

  predicate AdmittedAt(c: Config, steps: seq<Step>, i: nat, w: string)
    requires i < |steps| && ValidConfig(c) && forall k :: 0 <= k < |steps| ==> StepInRange(c, steps[k])
  {
    var s := steps[i];
    assert StepInRange(c, s);
    && s.Reserve? && Admitted(c, Run(c, steps[..i]), s.runId, s.snapshot, s.estimate, s.now).Some?
    && WindowKey(c, s.snapshot.observedAt) == w
  }

  /** The bound starts at nothing and follows the admissions to the window, and only these. */
  lemma LargestStep(c: Config, steps: seq<Step>, w: string)
    requires ValidConfig(c) && forall i :: 0 <= i < |steps| ==> StepInRange(c, steps[i])
    ensures steps == [] ==> LargestAdmitted(c, steps, w) == 0
    ensures steps != [] ==>
            var (n, before) := (|steps| - 1, LargestAdmitted(c, steps[..|steps| - 1], w));
            LargestAdmitted(c, steps, w)
            == if AdmittedAt(c, steps, n, w) && Spendable(steps[n]) > before then Spendable(steps[n]) else before
  {
    hide WindowKey, HasWindow, Run;
  }

  /** An admission adds its own tokens to its own window, and nothing to another. */
  lemma AdmissionGrowsWindow(c: Config, rows: seq<Row>, runId: string, snapshot: Snapshot,
                             estimate: nat, now: int, w: string)
    requires ValidConfig(c) && HasWindow(c, snapshot.observedAt) && HasWindow(c, now)
    ensures var row := Admitted(c, rows, runId, snapshot, estimate, now);
            var after := AfterReserve(c, rows, runId, snapshot, estimate, now);
            var added := if row.Some? && w == WindowKey(c, snapshot.observedAt) then row.value.tokens else 0;
            && after == (if row.Some? then rows + [row.value] else rows)
            && ReservedTokens(after, w) == ReservedTokens(rows, w) + added
  {
    hide Amount, Precheck, HasWindow, WindowKey, HasRun;
    var row := Admitted(c, rows, runId, snapshot, estimate, now);
    if row.Some? {
      AppendAddsTokens(rows, row.value, w);
    }
  }

  /** Which rows protect a workspace: reserved ones only, and of these the malformed and future-dated always. */
  lemma LiveExactly(c: Config, row: Row, now: int)
    ensures row.status != "reserved" ==> !Live(c, row, now)
    ensures row.status == "reserved" && row.createdAt.None? ==> Live(c, row, now)
    ensures row.status == "reserved" && row.createdAt.Some? ==>
      var horizon := (c.maxRunSeconds + c.resetSafetySeconds + 7200) * SECOND;
      (Live(c, row, now) <==> now < row.createdAt.value || now <= row.createdAt.value + horizon)
  {
  }

  lemma {:induction false} FinishKeepsTotal(rows: seq<Row>, runId: string, status: string, w: string)
    requires forall i :: 0 <= i < |rows| ==> rows[i].status != "released"
    requires status != "released"
    ensures ReservedTokens(AfterFinish(rows, runId, status), w) == ReservedTokens(rows, w)
  {
    if rows != [] {
      var n := |rows| - 1;
      assert AfterFinish(rows, runId, status)[..n] == AfterFinish(rows[..n], runId, status);
      FinishKeepsTotal(rows[..n], runId, status, w);
    }
  }

  lemma AppendAddsTokens(rows: seq<Row>, row: Row, w: string)
    ensures ReservedTokens(rows + [row], w) ==
            ReservedTokens(rows, w) + if row.windowKey == w && row.status != "released" then row.tokens else 0
  {
    assert (rows + [row])[..|rows|] == rows;
  }

  predicate NoneReleased(rows: seq<Row>) {
    forall i :: 0 <= i < |rows| ==> rows[i].status != "released"
  }

  /** One step: totals never fall, and grow only by an admission that its snapshot covers. */
  lemma StepConserves(c: Config, rows: seq<Row>, s: Step, w: string)
    requires ValidConfig(c) && StepInRange(c, s) && NoneReleased(rows)
    ensures NoneReleased(Apply(c, rows, s))
    ensures ReservedTokens(rows, w) <= ReservedTokens(Apply(c, rows, s), w)
    ensures ReservedTokens(rows, w) < ReservedTokens(Apply(c, rows, s), w) ==>
      && s.Reserve? && !HasRun(rows, s.runId) && WindowKey(c, s.snapshot.observedAt) == w
      && Admitted(c, rows, s.runId, s.snapshot, s.estimate, s.now).Some?
      && ReservedTokens(Apply(c, rows, s), w) <= s.snapshot.spendable.value
  {
    match s
    case Reserve(runId, snapshot, estimate, now) =>
      var row := Admitted(c, rows, runId, snapshot, estimate, now);
      if row.Some? {
        AppendAddsTokens(rows, row.value, w);
      }
    case Finish(runId, stage) =>
      FinishKeepsTotal(rows, runId, StageValue(stage), w);
  }

  /**
   Conservation over every interleaving: what a window holds never exceeds the largest spendable
   value admitted in it, and a longer run never holds less.
   */
  lemma {:induction false} TotalsConserved(c: Config, steps: seq<Step>, w: string)
    requires ValidConfig(c) && forall i :: 0 <= i < |steps| ==> StepInRange(c, steps[i])
    ensures NoneReleased(Run(c, steps))
    ensures ReservedTokens(Run(c, steps), w) <= LargestAdmitted(c, steps, w)
    ensures forall n :: 0 <= n <= |steps| ==> ReservedTokens(Run(c, steps[..n]), w) <= ReservedTokens(Run(c, steps), w)
  {
    if steps == [] {
      assert forall n :: 0 <= n <= |steps| ==> steps[..n] == steps;
    } else {
      var (front, s) := (steps[..|steps| - 1], steps[|steps| - 1]);
      TotalsConserved(c, front, w);
      StepConserves(c, Run(c, front), s, w);
      hide ReservedTokens, Admitted, Apply, NoneReleased, StepInRange, HasRun, WindowKey;
      forall n | 0 <= n <= |steps|
        ensures ReservedTokens(Run(c, steps[..n]), w) <= ReservedTokens(Run(c, steps), w)
      {
        if n == |steps| {
          assert steps[..n] == steps;
        } else {
          assert steps[..n] == front[..n];
        }
      }
    }
  }

  /** With a configured maximum, a window never holds more than the maximum less the reserve. */
  lemma {:induction false} TotalsWithinMaximum(c: Config, steps: seq<Step>, w: string)
    requires ValidConfig(c) && forall i :: 0 <= i < |steps| ==> StepInRange(c, steps[i])
    requires c.maximumTokens.Some?
    requires forall i :: 0 <= i < |steps| && steps[i].Reserve? ==>
      exists remaining :: TakeSnapshot(c, remaining, steps[i].snapshot.observedAt) == Ok(steps[i].snapshot)
    ensures LargestAdmitted(c, steps, w) <= Max(0, c.maximumTokens.value - c.reserveTokens)
    ensures ReservedTokens(Run(c, steps), w) <= Max(0, c.maximumTokens.value - c.reserveTokens)
  {
    if steps != [] {
      TotalsWithinMaximum(c, steps[..|steps| - 1], w);
    }
    TotalsConserved(c, steps, w);
  }

  /** Why the stages matter: a status of "released" would free what the run holds. */
  lemma ReleasedWouldFree(row: Row)
    requires row.status == "reserved" && row.tokens > 0
    ensures ReservedTokens(AfterFinish([row], row.runId, "released"), row.windowKey)
            < ReservedTokens([row], row.windowKey)
  {
    AppendAddsTokens([], row, row.windowKey);
    AppendAddsTokens([], row.(status := "released"), row.windowKey);
    assert AfterFinish([row], row.runId, "released") == [] + [row.(status := "released")];
    assert [row] == [] + [row];
  }
}
