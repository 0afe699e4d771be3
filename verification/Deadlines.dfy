/**
 The deadline chain: from an admitted reservation, through the run-wide deadline, to the instant
 at which one command is stopped; and how long the reservation keeps its workspace from the reaper.
 All instants lie on one line, in microseconds: the monotonic and the wall clock tick together.
 */
module Deadlines {
  import opened Results
  import opened Calendar
  import opened Timestamps
  import opened BudgetWindows
  import opened Budgets

  /** `int(seconds)`: truncation towards zero. */
  function Truncate(us: int): int {
    if us >= 0 then us / SECOND else -(-us / SECOND)
  }

  function Min(a: int, b: int): int {
    if a <= b then a else b
  }

  /** When the controller read its clocks on the way from the reservation to a running command. */
  datatype Reads = Reads(admitted: int, resetRead: int, deadlineRead: int, commandRead: int, started: int)

  predicate InOrder(k: Reads) {
    k.admitted <= k.resetRead <= k.deadlineRead <= k.commandRead <= k.started
  }

  /** The checks that a successful reservation has passed. */
  predicate Admission(c: Config, snapshot: Snapshot, k: Reads) {
    && ValidConfig(c) && HasWindow(c, snapshot.observedAt) && HasWindow(c, k.admitted)
    && Precheck(c, snapshot, k.admitted).Ok?
  }

  /** Time that passes between two reads of the clock that the code treats as one instant. */
  function Gaps(k: Reads): int {
    (k.deadlineRead - k.resetRead) + (k.started - k.commandRead)
  }

  function RunSeconds(c: Config, resetsAt: int, k: Reads): int {
    Min(c.maxRunSeconds, Truncate(resetsAt - k.resetRead - c.resetSafetySeconds * SECOND))
  }

  /** The run-wide deadline, or none when the run is deferred instead. */
  function RunDeadline(c: Config, resetsAt: int, k: Reads): Option<int> {
    var seconds := RunSeconds(c, resetsAt, k);
    if seconds < 1 then None else Some(k.deadlineRead + seconds * SECOND)
  }

  /** `_effective_timeout`, in whole seconds. */
  function EffectiveTimeout(configured: int, deadline: int, now: int): Option<int> {
    var remaining := Truncate(deadline - now);
    if remaining < 1 then None else Some(Min(configured, remaining))
  }

  /** When a run is deferred instead of started: less than a second is left before the margin. */
  lemma DeferredExactly(c: Config, resetsAt: int, k: Reads)
    requires c.maxRunSeconds >= 1
    ensures RunDeadline(c, resetsAt, k).None? <==> resetsAt - c.resetSafetySeconds * SECOND < k.resetRead + SECOND
    ensures RunDeadline(c, resetsAt, k).Some? ==>
      k.deadlineRead < RunDeadline(c, resetsAt, k).value <= k.deadlineRead + c.maxRunSeconds * SECOND
  {
  }

  /** When a command is not started at all, and how much of the time that is left it gets. */
  lemma TimeoutExactly(configured: int, deadline: int, now: int)
    ensures EffectiveTimeout(configured, deadline, now).None? <==> deadline < now + SECOND
    ensures EffectiveTimeout(configured, deadline, now).Some? ==>
      var t := EffectiveTimeout(configured, deadline, now).value;
      && t <= configured && now + t * SECOND <= deadline
      && (t == configured || deadline < now + (t + 1) * SECOND)
  {
  }

  /** The instant at which `execute` kills the command, when it gets to start one. */
  function StoppedBy(c: Config, resetsAt: int, configured: int, k: Reads): Option<int> {
    var deadline := RunDeadline(c, resetsAt, k);
    if deadline.None? then None
    else
      var timeout := EffectiveTimeout(configured, deadline.value, k.commandRead);
      if timeout.None? then None else Some(k.started + timeout.value * SECOND)
  }

  /** Fractions of a second that the two truncations give away. */
  function Slack(c: Config, resetsAt: int, k: Reads): int {
    var d := RunDeadline(c, resetsAt, k);
    (resetsAt - k.resetRead) % SECOND + if d.Some? then (d.value - k.commandRead) % SECOND else 0
  }

  /** Whole seconds that `max_run_seconds` and the command's own timeout leave unused before the margin. */
  function Headroom(c: Config, resetsAt: int, configured: int, k: Reads): int {
    var open := Truncate(resetsAt - k.resetRead - c.resetSafetySeconds * SECOND);
    var d := RunDeadline(c, resetsAt, k);
    var left := if d.Some? then Truncate(d.value - k.commandRead) else 0;
    (open - Min(c.maxRunSeconds, open)) * SECOND + (left - Min(configured, left)) * SECOND
  }

  /** Where every command stops, to the microsecond: off the margin by what the reads lose and the limits leave. */
  lemma CommandStopsAt(c: Config, resetsAt: int, configured: int, k: Reads)
    requires StoppedBy(c, resetsAt, configured, k).Some?
    ensures StoppedBy(c, resetsAt, configured, k).value
         == resetsAt - c.resetSafetySeconds * SECOND
             + Gaps(k) - Slack(c, resetsAt, k) - Headroom(c, resetsAt, configured, k)
    ensures Slack(c, resetsAt, k) >= 0 && Headroom(c, resetsAt, configured, k) >= 0
  {
    var deadline := RunDeadline(c, resetsAt, k).value;
    var (open, left) := (resetsAt - k.resetRead - c.resetSafetySeconds * SECOND, deadline - k.commandRead);
    assert open % SECOND == (resetsAt - k.resetRead) % SECOND;
    assert Truncate(open) * SECOND == open - open % SECOND;
    assert Truncate(left) * SECOND == left - left % SECOND;
  }

  /** The safety margin is met exactly when the gaps between clock reads fit in the slack and the headroom. */
  lemma MarginExactlyWithinSlack(c: Config, resetsAt: int, configured: int, k: Reads)
    requires StoppedBy(c, resetsAt, configured, k).Some?
    ensures StoppedBy(c, resetsAt, configured, k).value <= resetsAt - c.resetSafetySeconds * SECOND
       <==> Gaps(k) <= Slack(c, resetsAt, k) + Headroom(c, resetsAt, configured, k)
  {
    CommandStopsAt(c, resetsAt, configured, k);
  }

  /** In particular every command is stopped by the safety margin before the reset, give or take the gaps. */
  lemma CommandStopsBeforeMargin(c: Config, resetsAt: int, configured: int, k: Reads)
    requires StoppedBy(c, resetsAt, configured, k).Some?
    ensures StoppedBy(c, resetsAt, configured, k).value <= resetsAt - c.resetSafetySeconds * SECOND + Gaps(k)
  {
    CommandStopsAt(c, resetsAt, configured, k);
  }

  /** What the admission had to spare: the time left to the reset beyond what it requires. */
  function Spare(c: Config, resetsAt: int, k: Reads): int {
    resetsAt - k.admitted - (c.maxRunSeconds + c.resetSafetySeconds) * SECOND
  }

  /**
   The guard at admission: whenever it had more to spare than passes until the deadline is set and
   between the last clock read and the start, the margin is met, for every command of the run.
   */
  lemma SpareMeetsMargin(c: Config, resetsAt: int, configured: int, k: Reads)
    requires InOrder(k) && StoppedBy(c, resetsAt, configured, k).Some?
    requires (k.deadlineRead - k.admitted) + (k.started - k.commandRead) <= Spare(c, resetsAt, k)
    ensures StoppedBy(c, resetsAt, configured, k).value <= resetsAt - c.resetSafetySeconds * SECOND
    ensures Gaps(k) <= Slack(c, resetsAt, k) + Headroom(c, resetsAt, configured, k)
  {
    var deadline := RunDeadline(c, resetsAt, k).value;
    assert RunSeconds(c, resetsAt, k) <= c.maxRunSeconds;
    assert EffectiveTimeout(configured, deadline, k.commandRead).value * SECOND <= deadline - k.commandRead;
    MarginExactlyWithinSlack(c, resetsAt, configured, k);
  }

  /**
   The margin is not unconditional.  The last instant at which a run of 60 seconds is admitted on a
   daily window, with half a second between two reads: the command ends after the margin.
   */
  lemma MarginCanBeMissed() returns (c: Config, snapshot: Snapshot, configured: int, k: Reads)
    ensures InOrder(k) && Admission(c, snapshot, k) && snapshot.resetsAt == Some(NextReset(c, snapshot.observedAt))
    ensures StoppedBy(c, snapshot.resetsAt.value, configured, k).Some?
    ensures StoppedBy(c, snapshot.resetsAt.value, configured, k).value
          > snapshot.resetsAt.value - c.resetSafetySeconds * SECOND
  {
    var t := DAY - 60 * SECOND;
    c, configured := Config(Daily, 0, 0, 0, None, 0, 0, 1.0, 60, 0), 60;
    k := Reads(t, t, t, t, t + SECOND / 2);
    snapshot := Snapshot(Some(0), t, Some(DAY));
    FirstDay(c, t);
    assert RunDeadline(c, DAY, k) == Some(DAY);
    assert StoppedBy(c, DAY, configured, k) == Some(DAY + SECOND / 2);
  }

  lemma SameStartSameReset(c: Config, t: int, u: int)
    requires ValidConfig(c) && WindowStart(c, t) == WindowStart(c, u)
    ensures NextReset(c, t) == NextReset(c, u)
  {
    if c.window.Daily? {
      DailyReset(c, t);
      DailyReset(c, u);
    } else {
      WeeklyReset(c, t);
      WeeklyReset(c, u);
    }
  }

  /** Every instant of the interval carries the key of the snapshot. */
  ghost predicate KeyHolds(c: Config, snapshot: Snapshot, from: int, to: int)
    requires HasWindow(c, snapshot.observedAt)
  {
    forall u :: from <= u <= to && HasWindow(c, u) ==> WindowKey(c, u) == WindowKey(c, snapshot.observedAt)
  }

  /**
   The whole chain: after a successful reservation from the gate's own snapshot, every instant from
   the admission to the end of a command carries the reserved window key exactly when the gaps
   between clock reads stay below the safety margin, the slack and the headroom together.
   */
  lemma CommandStaysInReservedWindow(c: Config, snapshot: Snapshot, configured: int, k: Reads)
    requires InOrder(k) && Admission(c, snapshot, k) && snapshot.resetsAt == Some(NextReset(c, snapshot.observedAt))
    requires StoppedBy(c, snapshot.resetsAt.value, configured, k).Some?
    requires HasWindow(c, StoppedBy(c, snapshot.resetsAt.value, configured, k).value)
    ensures KeyHolds(c, snapshot, k.admitted, StoppedBy(c, snapshot.resetsAt.value, configured, k).value)
       <==> Gaps(k) < c.resetSafetySeconds * SECOND + Slack(c, snapshot.resetsAt.value, k)
                      + Headroom(c, snapshot.resetsAt.value, configured, k)
  {
    var resetsAt := snapshot.resetsAt.value;
    var stop := StoppedBy(c, resetsAt, configured, k).value;
    CommandStopsAt(c, resetsAt, configured, k);
    ResetIsLeastKeyChange(c, k.admitted, k.admitted);
    KeyNamesWindow(c, k.admitted, snapshot.observedAt);
    SameStartSameReset(c, k.admitted, snapshot.observedAt);
    hide StoppedBy, Slack, Headroom, HasWindow, WindowKey, NextReset, ValidConfig;
    forall u | k.admitted <= u <= stop && HasWindow(c, u)
      ensures WindowKey(c, u) == WindowKey(c, snapshot.observedAt) <==> u < resetsAt
    {
      ResetIsLeastKeyChange(c, k.admitted, u);
    }
    assert HasWindow(c, stop);
  }

  /** How much longer than its deadline plus the margin and 6900 seconds a reservation stays live. */
  function GraceLeft(c: Config, observedAt: int, resetsAt: int, k: Reads): int {
    (c.maxRunSeconds - RunSeconds(c, resetsAt, k)) * SECOND + 300 * SECOND - (k.deadlineRead - observedAt)
  }

  /**
   How long a reserved row is live, measured from the run deadline: up to the safety margin, 6900
   seconds and the grace left.  The grace is not negative if the deadline was set within 300
   seconds of the snapshot, and it is at least -(time from the admission to the deadline read).
   */
  lemma LiveBeyondDeadline(c: Config, snapshot: Snapshot, row: Row, k: Reads, u: int)
    requires InOrder(k) && Admission(c, snapshot, k)
    requires row.status == "reserved" && row.createdAt == Some(snapshot.observedAt)
    requires RunDeadline(c, snapshot.resetsAt.value, k).Some?
    ensures var grace := GraceLeft(c, snapshot.observedAt, snapshot.resetsAt.value, k);
            && (Live(c, row, u) <==>
                  u <= RunDeadline(c, snapshot.resetsAt.value, k).value
                      + (c.resetSafetySeconds + 6900) * SECOND + grace)
            && (k.deadlineRead - snapshot.observedAt <= 300 * SECOND ==> grace >= 0)
            && grace >= -(k.deadlineRead - k.admitted)
  {
    hide WindowKey, HasWindow;
  }

  ghost predicate LiveUntil(c: Config, row: Row, end: int) {
    forall u :: u <= end ==> Live(c, row, u)
  }

  /**
   The promise without the grace term, and its exact condition: a row protects its workspace until
   the margin and 6900 seconds past the deadline iff the deadline was not set too late for that.
   */
  lemma LiveForTheWholeGrace(c: Config, snapshot: Snapshot, row: Row, k: Reads)
    requires InOrder(k) && Admission(c, snapshot, k)
    requires row.status == "reserved" && row.createdAt == Some(snapshot.observedAt)
    requires RunDeadline(c, snapshot.resetsAt.value, k).Some?
    ensures LiveUntil(c, row, RunDeadline(c, snapshot.resetsAt.value, k).value + (c.resetSafetySeconds + 6900) * SECOND)
       <==> RunDeadline(c, snapshot.resetsAt.value, k).value - snapshot.observedAt <= (c.maxRunSeconds + 300) * SECOND
  {
    var resetsAt := snapshot.resetsAt.value;
    var end := RunDeadline(c, resetsAt, k).value + (c.resetSafetySeconds + 6900) * SECOND;
    forall u
      ensures Live(c, row, u) <==> u <= end + GraceLeft(c, snapshot.observedAt, resetsAt, k)
    {
      LiveBeyondDeadline(c, snapshot, row, k, u);
    }
    hide Live, HasWindow, WindowKey, Precheck;
    assert Live(c, row, end) <==> end <= end + GraceLeft(c, snapshot.observedAt, resetsAt, k);
  }

  /** A snapshot admitted at the age of 300 seconds, and one second until the deadline is set. */
  lemma GraceCanFallShort(row: Row) returns (c: Config, snapshot: Snapshot, k: Reads)
    requires row.status == "reserved" && row.createdAt.Some? && 0 <= row.createdAt.value <= DAY - 400 * SECOND
    ensures InOrder(k) && Admission(c, snapshot, k) && snapshot.resetsAt == Some(NextReset(c, snapshot.observedAt))
    ensures row.createdAt == Some(snapshot.observedAt) && RunDeadline(c, snapshot.resetsAt.value, k).Some?
    ensures !Live(c, row, RunDeadline(c, snapshot.resetsAt.value, k).value + (c.resetSafetySeconds + 6900) * SECOND)
  {
    hide Admission, NextReset;
    var t := row.createdAt.value;
    c := Config(Daily, 0, 0, 0, None, 0, 0, 1.0, 60, 0);
    k := Reads(t + 300 * SECOND, t + 300 * SECOND, t + 301 * SECOND, t + 301 * SECOND, t + 301 * SECOND);
    snapshot := Snapshot(Some(0), t, Some(DAY));
    LateAdmission(c, snapshot, k);
    LiveBeyondDeadline(c, snapshot, row, k, t + 361 * SECOND + 6900 * SECOND);
    hide Live;
    assert RunDeadline(c, DAY, k) == Some(t + 361 * SECOND);
  }

  lemma LateAdmission(c: Config, snapshot: Snapshot, k: Reads)
    requires c == Config(Daily, 0, 0, 0, None, 0, 0, 1.0, 60, 0)
    requires snapshot.spendable.Some? && snapshot.resetsAt == Some(DAY)
    requires 0 <= snapshot.observedAt <= DAY - 400 * SECOND && k.admitted == snapshot.observedAt + 300 * SECOND
    ensures Admission(c, snapshot, k) && NextReset(c, snapshot.observedAt) == DAY
  {
    hide WindowKey, WindowStart, NextReset, HasWindow;
    FirstDay(c, snapshot.observedAt);
    FirstDay(c, k.admitted);
    KeyNamesWindow(c, snapshot.observedAt, k.admitted);
  }

  lemma FirstDay(c: Config, t: int)
    requires c.window.Daily? && c.resetHour == 0 && c.utcOffset == 0 && 0 <= t < DAY
    ensures WindowStart(c, t) == 0 && HasWindow(c, t) && NextReset(c, t) == DAY
  {
    assert t / DAY == 0;
  }

  /** Past the horizon a row stops protecting its workspace but still holds its tokens. */
  lemma ReapableYetCounted(c: Config, row: Row, u: int)
    requires row.status == "reserved" && row.createdAt.Some?
    requires u > row.createdAt.value + (c.maxRunSeconds + c.resetSafetySeconds + COMPLETION_GRACE_SECONDS) * SECOND
    requires c.maxRunSeconds >= 0 && c.resetSafetySeconds >= 0
    ensures !Live(c, row, u)
    ensures ReservedTokens([row], row.windowKey) == row.tokens
  {
    AppendAddsTokens([], row, row.windowKey);
    assert [row] == [] + [row];
  }
}
