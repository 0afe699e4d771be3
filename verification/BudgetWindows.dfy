/** Quota windows: the window key of an instant, and the next instant at which it changes. */
module BudgetWindows {
  import opened Results
  import opened Calendar
  import opened Timestamps

  datatype Window = Daily | Weekly

  /** The budget settings, with the zone as a fixed offset from UTC in microseconds. */
  datatype Config = Config(
    window: Window, resetHour: int, resetWeekday: int, utcOffset: int,
    maximumTokens: Option<int>, reserveTokens: int, minimumSpendable: int,
    safetyMultiplier: real, maxRunSeconds: int, resetSafetySeconds: int)

  predicate ValidConfig(c: Config) {
    && 0 <= c.resetHour <= 23
    && 0 <= c.resetWeekday <= 6
    && -DAY < c.utcOffset < DAY
    && (c.maximumTokens.Some? ==> 1 <= c.maximumTokens.value)
    && 0 <= c.reserveTokens && 0 <= c.minimumSpendable
    && 1.0 <= c.safetyMultiplier <= 3.0
    && 60 <= c.maxRunSeconds <= 7200
    && 0 <= c.resetSafetySeconds <= 3600
  }

  /** `weekday()`: Monday is 0, and day 0 is a Monday. */
  function Weekday(day: int): int {
    day % 7
  }

  /** The first day of the quota window that holds instant `t`. */
  function WindowStart(c: Config, t: int): int {
    var day := (t + c.utcOffset - c.resetHour * HOUR) / DAY;
    if c.window.Daily? then day else day - (Weekday(day) - c.resetWeekday) % 7
  }

  /** The dates that Python must form for `t` exist. */
  predicate HasWindow(c: Config, t: int) {
    0 <= WindowStart(c, t) < MAX_DAYS
  }

  function WindowKey(c: Config, t: int): string
    requires HasWindow(c, t)
  {
    (if c.window.Daily? then "daily:" else "weekly:") + DateText(WindowStart(c, t))
  }

  /** `BudgetGate.next_reset`, in the same steps. */
  function NextReset(c: Config, t: int): int {
    var local := t + c.utcOffset;
    var today := local / DAY;
    if c.window.Daily? then
      var candidate := today * DAY + c.resetHour * HOUR;
      (if candidate <= local then candidate + DAY else candidate) - c.utcOffset
    else
      var resetDay := today + (c.resetWeekday - Weekday(today)) % 7;
      var candidate := resetDay * DAY + c.resetHour * HOUR;
      (if candidate <= local then candidate + 7 * DAY else candidate) - c.utcOffset
  }

  /** A window key names its first day: two instants share a key only within one window. */
  lemma KeyNamesWindow(c: Config, t: int, u: int)
    requires HasWindow(c, t) && HasWindow(c, u)
    ensures WindowKey(c, t) == WindowKey(c, u) <==> WindowStart(c, t) == WindowStart(c, u)
  {
    var prefix := if c.window.Daily? then "daily:" else "weekly:";
    DateTextOrder(WindowStart(c, t), WindowStart(c, u));
    TextChain(prefix, prefix, DateText(WindowStart(c, t)), DateText(WindowStart(c, u)));
  }

  /** What a key says: the kind of window, and the civil date on which it begins. */
  lemma KeyReads(c: Config, t: int)
    requires HasWindow(c, t)
    ensures var (k, d) := (WindowKey(c, t), DateOf(WindowStart(c, t)));
            var n := if c.window.Daily? then 6 else 7;
            && |k| == n + 10 && k[..n] == (if c.window.Daily? then "daily:" else "weekly:")
            && NumberOf(k[n..n + 4]) == d.year && NumberOf(k[n + 5..n + 7]) == d.month && NumberOf(k[n + 8..]) == d.day
  {
    var date := DateText(WindowStart(c, t));
    var prefix := if c.window.Daily? then "daily:" else "weekly:";
    DateTextReads(WindowStart(c, t));
    hide DateText, NumberOf, DateOf, WindowStart;
    assert |prefix| == if c.window.Daily? then 6 else 7;
    assert WindowKey(c, t) == prefix + date;
    DatePlaces(prefix, date);
  }

  lemma DatePlaces(prefix: string, date: string)
    requires |date| == 10
    ensures var (k, n) := (prefix + date, |prefix|);
            |k| == n + 10 && k[..n] == prefix && k[n..n + 4] == date[..4] && k[n + 5..n + 7] == date[5..7]
            && k[n + 8..] == date[8..]
  {
  }

  /** Subtracting the reset hour moves an instant to the previous day exactly before that hour. */
  lemma ShiftedDay(local: int, hour: int)
    requires 0 <= hour < DAY
    ensures (local - hour) / DAY == if hour <= local % DAY then local / DAY else local / DAY - 1
  {
    assert local == local / DAY * DAY + local % DAY;
  }

  /** A reset at `hour` of a day not before today has passed only if it is today's, and due. */
  lemma ResetPassed(local: int, hour: int, resetDay: int)
    requires 0 <= hour < DAY && local / DAY <= resetDay
    ensures resetDay * DAY + hour <= local <==> resetDay == local / DAY && hour <= local % DAY
  {
    assert local == local / DAY * DAY + local % DAY;
  }

  lemma DailyReset(c: Config, t: int)
    requires ValidConfig(c) && c.window.Daily?
    ensures NextReset(c, t) == (WindowStart(c, t) + 1) * DAY + c.resetHour * HOUR - c.utcOffset
  {
    ShiftedDay(t + c.utcOffset, c.resetHour * HOUR);
    ResetPassed(t + c.utcOffset, c.resetHour * HOUR, (t + c.utcOffset) / DAY);
  }

  lemma DaysToWeekday(day: int, weekday: int)
    requires 0 <= weekday <= 6
    ensures var ahead := (weekday - Weekday(day)) % 7;
            (day + ahead) % 7 == weekday && (Weekday(day) == weekday <==> ahead == 0)
    ensures var back := (Weekday(day) - weekday) % 7;
            (day - back) % 7 == weekday && (Weekday(day) == weekday <==> back == 0)
  {
    var (q, d) := (day / 7, day % 7);
    WeekdayOf(0, weekday - d);
    WeekdayOf(0, d - weekday);
    WeekdayOf(-1, weekday - d + 7);
    WeekdayOf(-1, d - weekday + 7);
    WeekdayOf(q, weekday);
    WeekdayOf(q + 1, weekday);
    WeekdayOf(q - 1, weekday);
  }

  lemma WeekdayOf(weeks: int, r: int)
    ensures 0 <= r < 7 ==> (7 * weeks + r) % 7 == r
  {
  }

  lemma SameWeekday(x: int, y: int)
    requires x % 7 == y % 7 && x - 7 < y < x + 7
    ensures x == y
  {
  }

  /** The coming reset day is one week after the start of the running window. */
  lemma WeekAfterStart(today: int, day: int, start: int, resetDay: int, due: bool)
    requires start % 7 == resetDay % 7 && start <= day <= start + 6 && today <= resetDay <= today + 6
    requires day == if due then today else today - 1
    ensures start + 7 == if resetDay == today && due then resetDay + 7 else resetDay
  {
    SameWeekday(if resetDay == today && due then resetDay else resetDay - 7, start);
  }

  lemma WeeklyReset(c: Config, t: int)
    requires ValidConfig(c) && c.window.Weekly?
    ensures NextReset(c, t) == (WindowStart(c, t) + 7) * DAY + c.resetHour * HOUR - c.utcOffset
    ensures WindowStart(c, t) % 7 == c.resetWeekday
  {
    var (local, hour) := (t + c.utcOffset, c.resetHour * HOUR);
    var (today, day) := (local / DAY, (local - hour) / DAY);
    DaysToWeekday(today, c.resetWeekday);
    DaysToWeekday(day, c.resetWeekday);
    ShiftedDay(local, hour);
    var resetDay := today + (c.resetWeekday - Weekday(today)) % 7;
    ResetPassed(local, hour, resetDay);
    WeekAfterStart(today, day, WindowStart(c, t), resetDay, hour <= local % DAY);
  }

  /** Where the window of `t` begins and ends: at the reset hour, and a weekly one on the reset weekday. */
  lemma WindowBounds(c: Config, t: int)
    requires ValidConfig(c)
    ensures var start := WindowStart(c, t) * DAY + c.resetHour * HOUR - c.utcOffset;
            start <= t < NextReset(c, t) && NextReset(c, t) == start + if c.window.Daily? then DAY else 7 * DAY
    ensures c.window.Weekly? ==> WindowStart(c, t) % 7 == c.resetWeekday
  {
    var shifted := t + c.utcOffset - c.resetHour * HOUR;
    assert shifted == shifted / DAY * DAY + shifted % DAY;
    if c.window.Daily? {
      DailyReset(c, t);
    } else {
      WeeklyReset(c, t);
    }
  }

  /** Windows do not overlap: a later window starts no earlier than the reset of the one before. */
  lemma WindowsAscend(c: Config, t: int, u: int)
    requires ValidConfig(c) && t <= u
    ensures WindowStart(c, t) <= WindowStart(c, u)
    ensures WindowStart(c, t) == WindowStart(c, u) <==> u < NextReset(c, t)
  {
    WindowBounds(c, t);
    WindowBounds(c, u);
    if c.window.Daily? {
      DailyReset(c, t);
      DailyReset(c, u);
    } else {
      WeeklyReset(c, t);
      WeeklyReset(c, u);
      WeeksAscend(WindowStart(c, t), WindowStart(c, u), c.resetHour * HOUR - c.utcOffset, t, u);
    }
  }

  lemma WeeksAscend(x: int, y: int, shift: int, t: int, u: int)
    requires x % 7 == y % 7 && t <= u
    requires x * DAY + shift <= t < (x + 7) * DAY + shift
    requires y * DAY + shift <= u < (y + 7) * DAY + shift
    ensures x <= y && (x == y <==> u < (x + 7) * DAY + shift)
  {
    assert x - 7 < y;
    if y < x + 7 {
      SameWeekday(x, y);
    }
  }

  /**
   The reset calendar: `NextReset(c, t)` is later than `t`, the key holds at every instant up to it,
   and no instant from it on ever has that key again.  So it is the least later change.
   */
  lemma ResetIsLeastKeyChange(c: Config, t: int, u: int)
    requires ValidConfig(c) && t <= u && HasWindow(c, t) && HasWindow(c, u)
    ensures t < NextReset(c, t)
    ensures WindowKey(c, u) == WindowKey(c, t) <==> u < NextReset(c, t)
  {
    WindowBounds(c, t);
    WindowsAscend(c, t, u);
    KeyNamesWindow(c, t, u);
  }
}
