/**
 Civil dates over day numbers, and the text order that SQLite's TEXT comparisons use.
 Day 0 is 0001-01-01, a Monday.  Years run from 1 to 9999, as in Python's `datetime`.
 */
module Calendar {

  const MAX_DAYS := 3652059  // the number of days in the years 1 to 9999

  datatype Date = Date(year: int, month: int, day: int)

  predicate IsLeap(year: int) {
    year % 4 == 0 && (year % 100 != 0 || year % 400 == 0)
  }

  function DaysInMonth(year: int, month: int): (n: int)
    requires 1 <= month <= 12
    ensures 28 <= n <= 31
  {
    if month == 2 then (if IsLeap(year) then 29 else 28)
    else if month in {4, 6, 9, 11} then 30
    else 31
  }

  function DaysBeforeYear(year: int): int
    requires 1 <= year
  {
    var p := year - 1;
    p * 365 + p / 4 - p / 100 + p / 400
  }

  function DaysBeforeMonth(year: int, month: int): int
    requires 1 <= month <= 13
  {
    if month == 1 then 0 else DaysBeforeMonth(year, month - 1) + DaysInMonth(year, month - 1)
  }

  predicate ValidDate(d: Date) {
    1 <= d.year && 1 <= d.month <= 12 && 1 <= d.day <= DaysInMonth(d.year, d.month)
  }

  function DayNumber(d: Date): int
    requires ValidDate(d)
  {
    DaysBeforeYear(d.year) + DaysBeforeMonth(d.year, d.month) + d.day - 1
  }

  /** Chronological order of dates: year first, then month, then day. */
  predicate Earlier(a: Date, b: Date) {
    a.year < b.year || (a.year == b.year && (a.month < b.month || (a.month == b.month && a.day < b.day)))
  }

  lemma MonthTotals(year: int)
    ensures DaysBeforeMonth(year, 13) == if IsLeap(year) then 366 else 365
  {
    assert DaysBeforeMonth(year, 2) == 31;
    assert DaysBeforeMonth(year, 3) == 31 + DaysInMonth(year, 2);
    assert DaysBeforeMonth(year, 5) == DaysBeforeMonth(year, 3) + 61;
    assert DaysBeforeMonth(year, 7) == DaysBeforeMonth(year, 5) + 61;
    assert DaysBeforeMonth(year, 9) == DaysBeforeMonth(year, 7) + 62;
    assert DaysBeforeMonth(year, 11) == DaysBeforeMonth(year, 9) + 61;
    assert DaysBeforeMonth(year, 13) == DaysBeforeMonth(year, 11) + 61;
  }

  lemma YearLength(year: int)
    requires 1 <= year
    ensures DaysBeforeYear(year + 1) == DaysBeforeYear(year) + (if IsLeap(year) then 366 else 365)
    ensures DaysBeforeMonth(year, 13) == if IsLeap(year) then 366 else 365
  {
    MonthTotals(year);
    hide DaysBeforeMonth;
    LeapCounts(year);
  }

  lemma LeapCounts(year: int)
    requires 1 <= year
    ensures year / 4 == (year - 1) / 4 + if year % 4 == 0 then 1 else 0
    ensures year / 100 == (year - 1) / 100 + if year % 100 == 0 then 1 else 0
    ensures year / 400 == (year - 1) / 400 + if year % 400 == 0 then 1 else 0
    ensures (year % 100 == 0 ==> year % 4 == 0) && (year % 400 == 0 ==> year % 100 == 0)
  {
  }

  lemma {:induction false} YearsAscend(a: int, b: int)
    requires 1 <= a <= b
    ensures DaysBeforeYear(a) <= DaysBeforeYear(b)
    decreases b - a
  {
    if a < b {
      YearLength(b - 1);
      YearsAscend(a, b - 1);
    }
  }

  lemma {:induction false} MonthsAscend(year: int, a: int, b: int)
    requires 1 <= a <= b <= 13
    ensures DaysBeforeMonth(year, a) <= DaysBeforeMonth(year, b)
    decreases b - a
  {
    if a < b {
      MonthsAscend(year, a, b - 1);
    }
  }

  function YearFrom(n: nat, year: int): (y: int)
    requires 1 <= year && DaysBeforeYear(year) <= n
    ensures year <= y && DaysBeforeYear(y) <= n < DaysBeforeYear(y + 1)
    decreases n - DaysBeforeYear(year)
  {
    YearLength(year);
    if n < DaysBeforeYear(year + 1) then year else YearFrom(n, year + 1)
  }

  function MonthFrom(year: int, n: nat, month: int): (m: int)
    requires 1 <= month <= 12 && DaysBeforeMonth(year, month) <= n < DaysBeforeMonth(year, 13)
    ensures month <= m <= 12 && DaysBeforeMonth(year, m) <= n < DaysBeforeMonth(year, m + 1)
    decreases 12 - month
  {
    if n < DaysBeforeMonth(year, month + 1) then month else MonthFrom(year, n, month + 1)
  }

  /** The civil date of a day number. */
  function DateOf(n: nat): (d: Date)
    ensures ValidDate(d) && DayNumber(d) == n
  {
    var y := YearFrom(n, 1);
    YearLength(y);
    var rest := n - DaysBeforeYear(y);
    var m := MonthFrom(y, rest, 1);
    Date(y, m, rest - DaysBeforeMonth(y, m) + 1)
  }

  lemma EarlierIsSmaller(a: Date, b: Date)
    requires ValidDate(a) && ValidDate(b) && Earlier(a, b)
    ensures DayNumber(a) < DayNumber(b)
  {
    if a.year < b.year {
      YearLength(a.year);
      MonthsAscend(a.year, a.month + 1, 13);
      YearsAscend(a.year + 1, b.year);
      MonthsAscend(b.year, 1, b.month);
    } else if a.month < b.month {
      MonthsAscend(a.year, a.month + 1, b.month);
    }
  }

  /** Dates are ordered as their day numbers are, and a representable day has a four-digit year. */
  lemma DateOrder(a: nat, b: nat)
    ensures a < b <==> Earlier(DateOf(a), DateOf(b))
    ensures a < MAX_DAYS ==> DateOf(a).year <= 9999
  {
    var x, y := DateOf(a), DateOf(b);
    if Earlier(x, y) {
      EarlierIsSmaller(x, y);
    } else if Earlier(y, x) {
      EarlierIsSmaller(y, x);
    }
    if x.year >= 10000 {
      YearsAscend(10000, x.year);
      MonthsAscend(x.year, 1, x.month);
    }
  }

  // ---- text and its order ----

  /** The order of SQLite's BINARY collation, on ASCII text. */
  predicate TextLess(a: string, b: string) {
    |b| > 0 && (|a| == 0 || a[0] < b[0] || (a[0] == b[0] && TextLess(a[1..], b[1..])))
  }

  lemma {:induction false} TextIrreflexive(a: string)
    ensures !TextLess(a, a)
  {
    if |a| > 0 {
      TextIrreflexive(a[1..]);
    }
  }

  /** Fields of one width are compared first; what follows them decides only when they are equal. */
  lemma {:induction false} TextChain(a: string, b: string, x: string, y: string)
    requires |a| == |b|
    ensures TextLess(a + x, b + y) <==> TextLess(a, b) || (a == b && TextLess(x, y))
    ensures a + x == b + y <==> a == b && x == y
  {
    if |a| == 0 {
      assert a + x == x && b + y == y;
    } else {
      assert (a + x)[1..] == a[1..] + x && (b + y)[1..] == b[1..] + y;
      TextChain(a[1..], b[1..], x, y);
      assert a == [a[0]] + a[1..] && b == [b[0]] + b[1..];
      assert a + x == [a[0]] + (a[1..] + x) && b + y == [b[0]] + (b[1..] + y);
    }
  }

  /** The same across a separator. */
  lemma FieldChain(a: string, b: string, separator: string, x: string, y: string)
    requires |a| == |b|
    ensures TextLess(a + (separator + x), b + (separator + y)) <==> TextLess(a, b) || (a == b && TextLess(x, y))
    ensures a + (separator + x) == b + (separator + y) <==> a == b && x == y
  {
    TextIrreflexive(separator);
    TextChain(separator, separator, x, y);
    TextChain(a, b, separator + x, separator + y);
  }

  /** Three fields of fixed widths, as in YYYY-MM-DD and HH:MM:SS, compare field by field. */
  lemma ThreeFields(a1: string, a2: string, a3: string, b1: string, b2: string, b3: string, separator: string)
    requires |a1| == |b1| && |a2| == |b2|
    ensures TextLess(a1 + (separator + (a2 + (separator + a3))), b1 + (separator + (b2 + (separator + b3)))) <==>
            (TextLess(a1, b1) || (a1 == b1 && (TextLess(a2, b2) || (a2 == b2 && TextLess(a3, b3)))))
    ensures a1 + (separator + (a2 + (separator + a3))) == b1 + (separator + (b2 + (separator + b3))) <==>
            (a1 == b1 && a2 == b2 && a3 == b3)
  {
    FieldChain(a2, b2, separator, a3, b3);
    FieldChain(a1, b1, separator, a2 + (separator + a3), b2 + (separator + b3));
  }

  function Pow10(w: nat): (p: int)
    ensures p >= 1
  {
    if w == 0 then 1 else 10 * Pow10(w - 1)
  }

  /** `n` in decimal, padded with zeros to `w` digits. */
  function Digits(n: nat, w: nat): (s: string)
    requires n < Pow10(w)
    ensures |s| == w
  {
    if w == 0 then "" else Digits(n / 10, w - 1) + [('0' as int + n % 10) as char]
  }

  lemma {:induction false} DigitsOrder(a: nat, b: nat, w: nat)
    requires a < Pow10(w) && b < Pow10(w)
    ensures TextLess(Digits(a, w), Digits(b, w)) <==> a < b
    ensures Digits(a, w) == Digits(b, w) <==> a == b
  {
    if w > 0 {
      DigitsOrder(a / 10, b / 10, w - 1);
      var x, y := [('0' as int + a % 10) as char], [('0' as int + b % 10) as char];
      TextChain(Digits(a / 10, w - 1), Digits(b / 10, w - 1), x, y);
      assert a == 10 * (a / 10) + a % 10 && b == 10 * (b / 10) + b % 10;
      assert TextLess(x, y) <==> a % 10 < b % 10;
      assert x == y <==> a % 10 == b % 10;
    }
  }

  /** `date.isoformat()`: YYYY-MM-DD. */
  function DateText(n: nat): (s: string)
    requires n < MAX_DAYS
    ensures |s| == 10
  {
    var d := DateOf(n);
    DateOrder(n, n);
    assert Pow10(2) == 100 && Pow10(4) == 10000;
    Digits(d.year, 4) + ("-" + (Digits(d.month, 2) + ("-" + Digits(d.day, 2))))
  }

  lemma DateTextOrder(a: nat, b: nat)
    requires a < MAX_DAYS && b < MAX_DAYS
    ensures TextLess(DateText(a), DateText(b)) <==> a < b
    ensures DateText(a) == DateText(b) <==> a == b
  {
    var x, y := DateOf(a), DateOf(b);
    DateOrder(a, b);
    DateOrder(b, a);
    assert Pow10(2) == 100 && Pow10(4) == 10000;
    DigitsOrder(x.year, y.year, 4);
    DigitsOrder(x.month, y.month, 2);
    DigitsOrder(x.day, y.day, 2);
    ThreeFields(Digits(x.year, 4), Digits(x.month, 2), Digits(x.day, 2),
                Digits(y.year, 4), Digits(y.month, 2), Digits(y.day, 2), "-");
  }

  // ---- what a date and its text name ----

  /** The Gregorian month lengths, as a calendar on the wall gives them. */
  function MonthLength(year: int, month: int): int
    requires 1 <= month <= 12
  {
    var common := [31, 28, 31, 30, 31, 30, 31, 31, 30, 31, 30, 31];
    var leap := year % 400 == 0 || (year % 4 == 0 && year % 100 != 0);
    common[month - 1] + if month == 2 && leap then 1 else 0
  }

  function Tomorrow(d: Date): Date
    requires ValidDate(d)
  {
    if d.day < MonthLength(d.year, d.month) then Date(d.year, d.month, d.day + 1)
    else if d.month < 12 then Date(d.year, d.month + 1, 1)
    else Date(d.year + 1, 1, 1)
  }

  lemma MonthLengths(year: int, month: int)
    requires 1 <= month <= 12
    ensures DaysInMonth(year, month) == MonthLength(year, month)
  {
  }

  lemma TomorrowIsNext(d: Date)
    requires ValidDate(d)
    ensures ValidDate(Tomorrow(d)) && DayNumber(Tomorrow(d)) == DayNumber(d) + 1
  {
    MonthLengths(d.year, d.month);
    YearLength(d.year);
    assert DaysBeforeMonth(d.year, d.month + 1) == DaysBeforeMonth(d.year, d.month) + DaysInMonth(d.year, d.month);
    if d.day == DaysInMonth(d.year, d.month) && d.month < 12 {
      MonthLengths(d.year, d.month + 1);
    }
    hide MonthLength, IsLeap;
  }

  /** Day 0 is the first of January of the year 1. */
  lemma FirstDate(d: Date)
    requires ValidDate(d)
    ensures DayNumber(d) == 0 <==> d == Date(1, 1, 1)
  {
    if d != Date(1, 1, 1) {
      EarlierIsSmaller(Date(1, 1, 1), d);
    }
  }

  /** Every next day is the next date of the calendar: with the first, this fixes all dates. */
  lemma DatesAreTheCalendar(n: nat)
    ensures (n == 0 <==> DateOf(n) == Date(1, 1, 1)) && DateOf(n + 1) == Tomorrow(DateOf(n))
  {
    var (d, e) := (DateOf(n), DateOf(n + 1));
    assert DayNumber(d) == n && DayNumber(e) == n + 1 && ValidDate(d) && ValidDate(e);
    hide DateOf, DayNumber, ValidDate, Tomorrow;
    FirstDate(d);
    TomorrowIsNext(d);
    SameDay(e, Tomorrow(d));
  }

  lemma SameDay(a: Date, b: Date)
    requires ValidDate(a) && ValidDate(b) && DayNumber(a) == DayNumber(b)
    ensures a == b
  {
    if Earlier(a, b) {
      EarlierIsSmaller(a, b);
    } else if Earlier(b, a) {
      EarlierIsSmaller(b, a);
    }
  }

  /** The number that a text of decimal digits names. */
  function NumberOf(s: string): int {
    if s == "" then 0 else 10 * NumberOf(s[..|s| - 1]) + (s[|s| - 1] as int - '0' as int)
  }

  lemma {:induction false} DigitsRead(n: nat, w: nat)
    requires n < Pow10(w)
    ensures NumberOf(Digits(n, w)) == n
    ensures forall k :: 0 <= k < w ==> '0' <= Digits(n, w)[k] <= '9'
  {
    if w > 0 {
      DigitsRead(n / 10, w - 1);
      var front := Digits(n / 10, w - 1);
      assert Digits(n, w)[..w - 1] == front;
      assert n == 10 * (n / 10) + n % 10;
    }
  }

  /** Three fields between separators, by their places. */
  lemma FieldPlaces(a: string, b: string, c: string, separator: char)
    ensures var s := a + ([separator] + (b + ([separator] + c)));
            var (i, j) := (|a|, |a| + 1 + |b|);
            && |s| == j + 1 + |c| && s[..i] == a && s[i] == separator && s[i + 1..j] == b
                && s[j] == separator && s[j + 1..] == c
  {
  }

  /** The text of a date reads back as its year, month and day. */
  lemma DateTextReads(n: nat)
    requires n < MAX_DAYS
    ensures var (t, d) := (DateText(n), DateOf(n));
            && NumberOf(t[..4]) == d.year && t[4] == '-' && NumberOf(t[5..7]) == d.month
                && t[7] == '-' && NumberOf(t[8..]) == d.day
  {
    var d := DateOf(n);
    DateOrder(n, n);
    assert Pow10(2) == 100 && Pow10(4) == 10000;
    DigitsRead(d.year, 4);
    DigitsRead(d.month, 2);
    DigitsRead(d.day, 2);
    FieldPlaces(Digits(d.year, 4), Digits(d.month, 2), Digits(d.day, 2), '-');
    hide Digits, NumberOf;
  }
}
