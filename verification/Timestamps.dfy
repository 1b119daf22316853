/**
 Stored timestamps. A point in time is given in UTC by its calendar fields, for the years 0 to 9999, and stored as
 fixed-width text; the database compares the texts.
 */
module Timestamps {
  import opened TextOrder

  datatype Civil = Civil(year: nat, month: nat, day: nat, hour: nat, minute: nat, second: nat, nano: nat)

  predicate IsLeap(y: nat) {
    y % 4 == 0 && (y % 100 != 0 || y % 400 == 0)
  }

  function DaysInMonth(y: nat, m: nat): nat {
    if m == 2 then if IsLeap(y) then 29 else 28
    else if m == 4 || m == 6 || m == 9 || m == 11 then 30
    else 31
  }

  predicate ValidUtc(t: Civil) {
    && t.year <= 9999 && 1 <= t.month <= 12 && 1 <= t.day <= DaysInMonth(t.year, t.month)
    && t.hour < 24 && t.minute < 60 && t.second < 60 && t.nano < 1_000_000_000
  }

  type Utc = t: Civil | ValidUtc(t) witness Civil(1970, 1, 1, 0, 0, 0, 0)

  // ----- Text --------------------------------------------------------------------------

  function Digits(n: nat, width: nat): string {
    if width == 0 then "" else Digits(n / 10, width - 1) + [('0' as int + n % 10) as char]
  }

  /** The layout 2006-01-02T15:04:05.000000000Z. */
  function Timestamp(t: Utc): string {
    Digits(t.year, 4) + ("-" + (Digits(t.month, 2) + ("-" + (Digits(t.day, 2) + ("T" + ClockText(t))))))
  }

  function ClockText(t: Utc): string {
    Digits(t.hour, 2) +
    (":" + (Digits(t.minute, 2) + (":" + (Digits(t.second, 2) + ("." + (Digits(t.nano, 9) + "Z"))))))
  }

  /** The layout 2006-01-02. */
  function DateOnly(t: Utc): string {
    Digits(t.year, 4) + ("-" + (Digits(t.month, 2) + ("-" + Digits(t.day, 2))))
  }

  // ----- Time --------------------------------------------------------------------------

  function YearDays(y: nat): nat {
    if IsLeap(y) then 366 else 365
  }

  function DaysBeforeYear(y: nat): nat {
    if y == 0 then 0 else DaysBeforeYear(y - 1) + YearDays(y - 1)
  }

  function DaysBeforeMonth(y: nat, m: nat): nat {
    if m <= 1 then 0 else DaysBeforeMonth(y, m - 1) + DaysInMonth(y, m - 1)
  }

  function DayNumber(t: Utc): nat {
    DaysBeforeYear(t.year) + DaysBeforeMonth(t.year, t.month) + t.day - 1
  }

  function NanoOfDay(t: Utc): nat {
    ((t.hour * 60 + t.minute) * 60 + t.second) * 1_000_000_000 + t.nano
  }

  const DAY_NANOS := 86_400_000_000_000

  /** Nanoseconds since the start of year 0. */
  function Instant(t: Utc): nat {
    DayNumber(t) * DAY_NANOS + NanoOfDay(t)
  }

  // ----- Field by field ----------------------------------------------------------------

  predicate DateBefore(a: Utc, b: Utc) {
    a.year < b.year || (a.year == b.year && (a.month < b.month || (a.month == b.month && a.day < b.day)))
  }

  predicate SameDate(a: Utc, b: Utc) {
    a.year == b.year && a.month == b.month && a.day == b.day
  }

  predicate ClockBefore(a: Utc, b: Utc) {
    || a.hour < b.hour
    || (a.hour == b.hour
        && (|| a.minute < b.minute
            || (a.minute == b.minute
                && (a.second < b.second || (a.second == b.second && a.nano < b.nano)))))
  }

  // ----- The calendar is monotone ------------------------------------------------------

  lemma {:induction false} YearsGrow(y: nat, z: nat)
    requires y < z
    ensures DaysBeforeYear(y) + YearDays(y) <= DaysBeforeYear(z)
  {
    if y < z - 1 { YearsGrow(y, z - 1); }
  }

  lemma {:induction false} MonthsGrow(y: nat, m: nat, n: nat)
    requires 1 <= m < n
    ensures DaysBeforeMonth(y, m) + DaysInMonth(y, m) <= DaysBeforeMonth(y, n)
  {
    if m < n - 1 { MonthsGrow(y, m, n - 1); }
  }

  lemma YearHoldsMonths(y: nat)
    ensures DaysBeforeMonth(y, 13) == YearDays(y)
  {
    assert DaysBeforeMonth(y, 1) == 0 && DaysBeforeMonth(y, 2) == 31;
    assert DaysBeforeMonth(y, 4) == DaysBeforeMonth(y, 3) + 31;
    assert DaysBeforeMonth(y, 6) == DaysBeforeMonth(y, 5) + 31;
    assert DaysBeforeMonth(y, 8) == DaysBeforeMonth(y, 7) + 31;
    assert DaysBeforeMonth(y, 10) == DaysBeforeMonth(y, 9) + 30;
    assert DaysBeforeMonth(y, 12) == DaysBeforeMonth(y, 11) + 30;
  }

  lemma DayNumberOrder(a: Utc, b: Utc)
    ensures DateBefore(a, b) ==> DayNumber(a) < DayNumber(b)
  {
    if a.year < b.year {
      YearsGrow(a.year, b.year);
      YearHoldsMonths(a.year);
      MonthsGrow(a.year, a.month, 13);
    } else if a.month < b.month && a.year == b.year {
      MonthsGrow(a.year, a.month, b.month);
    }
  }

  lemma InstantOrder(a: Utc, b: Utc)
    ensures Instant(a) < Instant(b) <==> DateBefore(a, b) || (SameDate(a, b) && ClockBefore(a, b))
  {
    DayNumberOrder(a, b);
    DayNumberOrder(b, a);
    assert NanoOfDay(a) < DAY_NANOS && NanoOfDay(b) < DAY_NANOS;
  }

  // ----- Texts are ordered like times --------------------------------------------------

  function Pow10(w: nat): nat {
    if w == 0 then 1 else 10 * Pow10(w - 1)
  }

  lemma {:induction false} DigitsLength(n: nat, w: nat)
    ensures |Digits(n, w)| == w
  {
    if w > 0 { DigitsLength(n / 10, w - 1); }
  }

  lemma {:induction false} DigitsOrder(n: nat, m: nat, w: nat)
    requires n < Pow10(w) && m < Pow10(w)
    ensures TextLess(Digits(n, w), Digits(m, w)) <==> n < m
    ensures Digits(n, w) == Digits(m, w) <==> n == m
  {
    if w > 0 {
      DigitsOrder(n / 10, m / 10, w - 1);
      DigitsLength(n / 10, w - 1);
      DigitsLength(m / 10, w - 1);
      LessByParts(Digits(n / 10, w - 1), Digits(m / 10, w - 1),
                  [('0' as int + n % 10) as char], [('0' as int + m % 10) as char]);
      assert Digits(n, w)[..w - 1] == Digits(n / 10, w - 1) && Digits(m, w)[..w - 1] == Digits(m / 10, w - 1);
      assert Digits(n, w)[w - 1] == ('0' as int + n % 10) as char;
      assert Digits(m, w)[w - 1] == ('0' as int + m % 10) as char;
    }
  }

  /** Comparing texts that start with numbers of the same width. */
  lemma LessByNumber(n: nat, m: nat, w: nat, x: string, y: string)
    requires n < Pow10(w) && m < Pow10(w)
    ensures TextLess(Digits(n, w) + x, Digits(m, w) + y) <==> n < m || (n == m && TextLess(x, y))
  {
    DigitsLength(n, w);
    DigitsLength(m, w);
    DigitsOrder(n, m, w);
    LessByParts(Digits(n, w), Digits(m, w), x, y);
  }

  lemma LessAfter(sep: string, x: string, y: string)
    ensures TextLess(sep + x, sep + y) <==> TextLess(x, y)
  {
    TextTrichotomy(sep, sep);
    LessByParts(sep, sep, x, y);
  }

  lemma Powers()
    ensures Pow10(2) == 100 && Pow10(4) == 10_000 && Pow10(9) == 1_000_000_000
  {
    assert Pow10(3) == 1000 && Pow10(6) == 1_000_000;
  }

  lemma ClockTextOrder(a: Utc, b: Utc)
    ensures TextLess(ClockText(a), ClockText(b)) <==> ClockBefore(a, b)
  {
    Powers();
    var n, n' := Digits(a.nano, 9) + "Z", Digits(b.nano, 9) + "Z";
    LessByNumber(a.nano, b.nano, 9, "Z", "Z");
    TextTrichotomy("Z", "Z");
    LessAfter(".", n, n');
    var s, s' := Digits(a.second, 2) + ("." + n), Digits(b.second, 2) + ("." + n');
    LessByNumber(a.second, b.second, 2, "." + n, "." + n');
    LessAfter(":", s, s');
    var m, m' := Digits(a.minute, 2) + (":" + s), Digits(b.minute, 2) + (":" + s');
    LessByNumber(a.minute, b.minute, 2, ":" + s, ":" + s');
    LessAfter(":", m, m');
    LessByNumber(a.hour, b.hour, 2, ":" + m, ":" + m');
  }

  lemma DateTextOrder(a: Utc, b: Utc, x: string, y: string)
    ensures TextLess(Digits(a.year, 4) + ("-" + (Digits(a.month, 2) + ("-" + (Digits(a.day, 2) + x)))),
                     Digits(b.year, 4) + ("-" + (Digits(b.month, 2) + ("-" + (Digits(b.day, 2) + y)))))
            <==> DateBefore(a, b) || (SameDate(a, b) && TextLess(x, y))
  {
    Powers();
    var d, d' := Digits(a.day, 2) + x, Digits(b.day, 2) + y;
    LessByNumber(a.day, b.day, 2, x, y);
    LessAfter("-", d, d');
    var m, m' := Digits(a.month, 2) + ("-" + d), Digits(b.month, 2) + ("-" + d');
    LessByNumber(a.month, b.month, 2, "-" + d, "-" + d');
    LessAfter("-", m, m');
    LessByNumber(a.year, b.year, 4, "-" + m, "-" + m');
  }

  /** The text order of stored timestamps is the order of time. */
  lemma TimestampOrder(a: Utc, b: Utc)
    ensures TextLess(Timestamp(a), Timestamp(b)) <==> Instant(a) < Instant(b)
  {
    ClockTextOrder(a, b);
    LessAfter("T", ClockText(a), ClockText(b));
    DateTextOrder(a, b, "T" + ClockText(a), "T" + ClockText(b));
    InstantOrder(a, b);
  }

  /** Day texts are ordered like days. */
  lemma DateOnlyOrder(a: Utc, b: Utc)
    ensures TextLess(DateOnly(a), DateOnly(b)) <==> DateBefore(a, b)
  {
    assert Digits(a.day, 2) + "" == Digits(a.day, 2) && Digits(b.day, 2) + "" == Digits(b.day, 2);
    DateTextOrder(a, b, "", "");
  }

  predicate IsMidnight(t: Utc) {
    t.hour == 0 && t.minute == 0 && t.second == 0 && t.nano == 0
  }

  /** For a midnight cutoff the comparison of timestamps and the comparison of days select the same rows. */
  lemma MidnightCutoff(t: Utc, cutoff: Utc)
    requires IsMidnight(cutoff)
    ensures TextLess(Timestamp(t), Timestamp(cutoff)) <==> TextLess(DateOnly(t), DateOnly(cutoff))
  {
    TimestampOrder(t, cutoff);
    InstantOrder(t, cutoff);
    DateOnlyOrder(t, cutoff);
  }
}
