/**
 The three text forms of a UTC instant: `datetime.isoformat()` in the two ledgers, the
 microsecond form of the telemetry store, and the `Z` form of `models.isoformat`.
 An instant is a count of microseconds since 0001-01-01T00:00:00Z.
 */
module Timestamps {
  import opened Calendar

  const SECOND := 1_000_000
  const HOUR := 3600 * SECOND
  const DAY := 86400 * SECOND

  /** An instant of the years 1 to 9999. */
  predicate Representable(t: int) {
    0 <= t < MAX_DAYS * DAY
  }

  type Instant = t: nat | Representable(t)

  function ClockText(s: nat): (r: string)
    requires s < 86400
    ensures |r| == 8
  {
    assert Pow10(2) == 100;
    Digits(s / 3600, 2) + (":" + (Digits(s / 60 % 60, 2) + (":" + Digits(s % 60, 2))))
  }

  lemma ClockFields(s: nat)
    ensures s == 3600 * (s / 3600) + 60 * (s / 60 % 60) + s % 60
  {
    assert s == 60 * (s / 60) + s % 60;
    assert s / 60 == 60 * (s / 60 / 60) + s / 60 % 60;
    assert s / 60 / 60 == s / 3600;
  }

  lemma ClockFieldOrder(a: nat, b: nat)
    ensures a < b <==> (a / 3600 < b / 3600 || (a / 3600 == b / 3600 &&
                        (a / 60 % 60 < b / 60 % 60 || (a / 60 % 60 == b / 60 % 60 && a % 60 < b % 60))))
    ensures a == b <==> a / 3600 == b / 3600 && a / 60 % 60 == b / 60 % 60 && a % 60 == b % 60
  {
    ClockFields(a);
    ClockFields(b);
  }

  lemma ClockTextOrder(a: nat, b: nat)
    requires a < 86400 && b < 86400
    ensures TextLess(ClockText(a), ClockText(b)) <==> a < b
    ensures ClockText(a) == ClockText(b) <==> a == b
  {
    assert Pow10(2) == 100;
    var (ha, ma, sa) := (a / 3600, a / 60 % 60, a % 60);
    var (hb, mb, sb) := (b / 3600, b / 60 % 60, b % 60);
    ClockFieldOrder(a, b);
    DigitsOrder(ha, hb, 2);
    DigitsOrder(ma, mb, 2);
    DigitsOrder(sa, sb, 2);
    ThreeFields(Digits(ha, 2), Digits(ma, 2), Digits(sa, 2), Digits(hb, 2), Digits(mb, 2), Digits(sb, 2), ":");
  }

  /** YYYY-MM-DDTHH:MM:SS, the part that all three forms share. */
  function WholeSeconds(t: nat): (r: string)
    requires Representable(t)
    ensures |r| == 19
  {
    DateText(t / SECOND / 86400) + ("T" + ClockText(t / SECOND % 86400))
  }

  lemma WholeSecondsOrder(a: nat, b: nat)
    requires Representable(a) && Representable(b)
    ensures TextLess(WholeSeconds(a), WholeSeconds(b)) <==> a / SECOND < b / SECOND
    ensures WholeSeconds(a) == WholeSeconds(b) <==> a / SECOND == b / SECOND
  {
    var (da, db) := (a / SECOND / 86400, b / SECOND / 86400);
    var (sa, sb) := (a / SECOND % 86400, b / SECOND % 86400);
    assert a / SECOND == 86400 * da + sa && b / SECOND == 86400 * db + sb;
    DateTextOrder(da, db);
    ClockTextOrder(sa, sb);
    FieldChain(DateText(da), DateText(db), "T", ClockText(sa), ClockText(sb));
  }

  /** The fraction that Python prints: none when the microseconds are zero, else six digits. */
  function Fraction(us: nat): string
    requires us < SECOND
  {
    assert Pow10(6) == 1_000_000;
    if us == 0 then "" else "." + Digits(us, 6)
  }

  /** `datetime.isoformat()` of an aware UTC datetime: what both ledgers store and compare. */
  function IsoText(t: nat): string
    requires Representable(t)
  {
    WholeSeconds(t) + (Fraction(t % SECOND) + "+00:00")
  }

  /** `_utc_text` of the telemetry store: always six fraction digits. */
  function MicrosText(t: nat): string
    requires Representable(t)
  {
    assert Pow10(6) == 1_000_000;
    WholeSeconds(t) + ("." + (Digits(t % SECOND, 6) + "Z"))
  }

  /** `models.isoformat`: the optional fraction, with `+00:00` replaced by `Z`. */
  function ZuluText(t: nat): string
    requires Representable(t)
  {
    WholeSeconds(t) + (Fraction(t % SECOND) + "Z")
  }

  lemma DottedOrder(x: nat, y: nat, zone: string)
    requires x < SECOND && y < SECOND
    ensures Pow10(6) == 1_000_000
    ensures TextLess("." + Digits(x, 6) + zone, "." + Digits(y, 6) + zone) <==> x < y
    ensures "." + Digits(x, 6) + zone == "." + Digits(y, 6) + zone <==> x == y
  {
    assert Pow10(6) == 1_000_000;
    TextIrreflexive(".");
    TextIrreflexive(zone);
    DigitsOrder(x, y, 6);
    TextChain(Digits(x, 6), Digits(y, 6), zone, zone);
    TextChain(".", ".", Digits(x, 6) + zone, Digits(y, 6) + zone);
    assert "." + (Digits(x, 6) + zone) == "." + Digits(x, 6) + zone;
    assert "." + (Digits(y, 6) + zone) == "." + Digits(y, 6) + zone;
  }

  /** Within one second: `+` sorts before `.`, so the whole second comes first. */
  lemma LedgerTailOrder(x: nat, y: nat)
    requires x < SECOND && y < SECOND
    ensures TextLess(Fraction(x) + "+00:00", Fraction(y) + "+00:00") <==> x < y
    ensures Fraction(x) + "+00:00" == Fraction(y) + "+00:00" <==> x == y
  {
    var fx, fy := Fraction(x) + "+00:00", Fraction(y) + "+00:00";
    DottedOrder(x, y, "+00:00");
    TextIrreflexive("+00:00");
    assert fx[0] == if x == 0 then '+' else '.';
    assert fy[0] == if y == 0 then '+' else '.';
    assert x == 0 ==> fx == "+00:00";
    assert y == 0 ==> fy == "+00:00";
  }

  /**
   The text order of the ledger form is the order of time, with the fraction present or absent.
   */
  lemma IsoTextOrder(a: nat, b: nat)
    requires Representable(a) && Representable(b)
    ensures TextLess(IsoText(a), IsoText(b)) <==> a < b
    ensures IsoText(a) == IsoText(b) <==> a == b
  {
    var x, y := a % SECOND, b % SECOND;
    WholeSecondsOrder(a, b);
    LedgerTailOrder(x, y);
    TextChain(WholeSeconds(a), WholeSeconds(b), Fraction(x) + "+00:00", Fraction(y) + "+00:00");
    assert a == SECOND * (a / SECOND) + x && b == SECOND * (b / SECOND) + y;
  }

  /** The text order of the telemetry form is the order of time. */
  lemma MicrosTextOrder(a: nat, b: nat)
    requires Representable(a) && Representable(b)
    ensures TextLess(MicrosText(a), MicrosText(b)) <==> a < b
    ensures MicrosText(a) == MicrosText(b) <==> a == b
  {
    var x, y := a % SECOND, b % SECOND;
    WholeSecondsOrder(a, b);
    DottedOrder(x, y, "Z");
    assert "." + (Digits(x, 6) + "Z") == "." + Digits(x, 6) + "Z";
    assert "." + (Digits(y, 6) + "Z") == "." + Digits(y, 6) + "Z";
    TextChain(WholeSeconds(a), WholeSeconds(b), "." + (Digits(x, 6) + "Z"), "." + (Digits(y, 6) + "Z"));
  }

  /**
   Exactly when the `Z` form misorders two instants: they lie in one second and one of them is
   the whole second itself, because `Z` sorts after `.`.
   */
  lemma ZuluTextOrderFailure(a: nat, b: nat)
    requires Representable(a) && Representable(b)
    ensures (TextLess(ZuluText(a), ZuluText(b)) <==> a < b)
       <==> !(a / SECOND == b / SECOND && a != b && (a % SECOND == 0 || b % SECOND == 0))
  {
    var x, y := a % SECOND, b % SECOND;
    var fx, fy := Fraction(x) + "Z", Fraction(y) + "Z";
    WholeSecondsOrder(a, b);
    TextChain(WholeSeconds(a), WholeSeconds(b), fx, fy);
    DottedOrder(x, y, "Z");
    TextIrreflexive("Z");
    assert x == 0 ==> fx[0] == 'Z';
    assert x > 0 ==> fx[0] == '.';
    assert y == 0 ==> fy[0] == 'Z';
    assert y > 0 ==> fy[0] == '.';
  }

  /** A concrete misordering: one microsecond past the epoch sorts before the epoch itself. */
  lemma ZuluTextMisorders()
    ensures Representable(0) && Representable(1)
    ensures TextLess(ZuluText(1), ZuluText(0))
  {
    ZuluTextOrderFailure(1, 0);
  }

  // ---- what a timestamp names ----

  /** The instant that the fields of a timestamp name: a day number from its date, and the time of day. */
  function InstantAt(day: int, text: string): int
    requires |text| >= 20
  {
    var seconds := NumberOf(text[11..13]) * 3600 + NumberOf(text[14..16]) * 60 + NumberOf(text[17..19]);
    var fraction := if |text| >= 26 && text[19] == '.' then NumberOf(text[20..26]) else 0;
    (day * 86400 + seconds) * SECOND + fraction
  }

  /** The text has the date of day `n` and the punctuation of a timestamp. */
  predicate Dated(n: int, text: string) {
    && |text| >= 20 && 0 <= n < MAX_DAYS && text[..10] == DateText(n)
    && text[10] == 'T' && text[13] == ':' && text[16] == ':'
  }

  lemma ClockTextReads(s: nat)
    requires s < 86400
    ensures var t := ClockText(s);
            && NumberOf(t[..2]) == s / 3600 && t[2] == ':' && NumberOf(t[3..5]) == s / 60 % 60 && t[5] == ':'
            && NumberOf(t[6..]) == s % 60
  {
    assert Pow10(2) == 100;
    DigitsRead(s / 3600, 2);
    DigitsRead(s / 60 % 60, 2);
    DigitsRead(s % 60, 2);
    FieldPlaces(Digits(s / 3600, 2), Digits(s / 60 % 60, 2), Digits(s % 60, 2), ':');
    hide Digits, NumberOf;
  }

  lemma WholeSecondsPlaces(t: nat, tail: string)
    requires Representable(t) && tail != ""
    ensures var s := WholeSeconds(t) + tail;
            && s[..10] == DateText(t / SECOND / 86400) && s[10] == 'T' && s[19..] == tail
            && s[11..13] == ClockText(t / SECOND % 86400)[..2] && s[13] == ClockText(t / SECOND % 86400)[2]
            && s[14..16] == ClockText(t / SECOND % 86400)[3..5] && s[16] == ClockText(t / SECOND % 86400)[5]
            && s[17..19] == ClockText(t / SECOND % 86400)[6..]
  {
    hide DateText, ClockText;
  }

  lemma TailReads(t: nat, tail: string)
    requires Representable(t) && tail != ""
    requires if t % SECOND == 0 then tail[0] != '.' || (|tail| >= 7 && NumberOf(tail[1..7]) == 0)
             else |tail| >= 7 && tail[0] == '.' && NumberOf(tail[1..7]) == t % SECOND
    ensures Dated(t / DAY, WholeSeconds(t) + tail) && InstantAt(t / DAY, WholeSeconds(t) + tail) == t
  {
    hide ClockText, DateText, NumberOf, WholeSeconds;
    var (clock, s) := (t / SECOND % 86400, WholeSeconds(t) + tail);
    WholeSecondsPlaces(t, tail);
    ClockTextReads(clock);
    FieldsAddUp(t);
    assert s[19] == tail[0];
    if |tail| >= 7 {
      assert s[20..26] == tail[1..7];
    }
  }

  lemma FieldsAddUp(t: nat)
    ensures var clock := t / SECOND % 86400;
            t == (t / DAY * 86400 + (clock / 3600 * 3600 + clock / 60 % 60 * 60 + clock % 60)) * SECOND + t % SECOND
    ensures t / SECOND / 86400 == t / DAY
  {
    var clock := t / SECOND % 86400;
    ClockFields(clock);
    assert t / SECOND / 86400 == t / DAY;
    assert t / SECOND == 86400 * (t / SECOND / 86400) + clock && t == SECOND * (t / SECOND) + t % SECOND;
  }

  /** The fraction, dotted and followed by a zone. */
  lemma FractionReads(x: nat, zone: string)
    requires x < SECOND
    ensures Pow10(6) == 1_000_000 && |Digits(x, 6)| == 6
    ensures var tail := "." + (Digits(x, 6) + zone); |tail| >= 7 && tail[0] == '.' && NumberOf(tail[1..7]) == x
  {
    assert Pow10(6) == 1_000_000;
    DigitsRead(x, 6);
    var tail := "." + (Digits(x, 6) + zone);
    assert tail[1..7] == Digits(x, 6);
  }

  /** Every text form of an instant reads back as that instant, to the microsecond. */
  lemma TextsNameTheInstant(t: nat)
    requires Representable(t)
    ensures Dated(t / DAY, IsoText(t)) && InstantAt(t / DAY, IsoText(t)) == t
    ensures Dated(t / DAY, MicrosText(t)) && InstantAt(t / DAY, MicrosText(t)) == t
    ensures Dated(t / DAY, ZuluText(t)) && InstantAt(t / DAY, ZuluText(t)) == t
  {
    var x := t % SECOND;
    FractionReads(x, "Z");
    FractionReads(x, "+00:00");
    hide Digits, NumberOf, WholeSeconds, InstantAt, Dated;
    TailReads(t, "." + (Digits(x, 6) + "Z"));
    if x == 0 {
      assert Fraction(x) + "Z" == "Z" && Fraction(x) + "+00:00" == "+00:00";
    } else {
      assert Fraction(x) + "Z" == "." + (Digits(x, 6) + "Z");
      assert Fraction(x) + "+00:00" == "." + (Digits(x, 6) + "+00:00");
    }
    TailReads(t, Fraction(x) + "Z");
    TailReads(t, Fraction(x) + "+00:00");
  }
}
