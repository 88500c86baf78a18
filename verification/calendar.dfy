/** The weekly leaderboard's week identifier: the ISO 8601 week-numbering
    year and week of a calendar date, printed as `<year>-<week>`.

    Days are numbered in the proleptic Gregorian calendar with 0001-01-01,
    a Monday, as day 1. The computation follows the source step by step:
    move to the Thursday of the date's Monday-to-Sunday week, take that
    Thursday's year, and count its days from January 1 in milliseconds. */
module Calendar {
  import opened Text
  import opened JsMath

  /** A date as the browser's local clock reports it: full year, month
      index 0..11 (`getMonth`) and day of the month (`getDate`). */
  datatype Date = Date(year: int, monthIndex: int, day: int)

  predicate IsLeapYear(y: int) {
    y % 4 == 0 && (y % 100 != 0 || y % 400 == 0)
  }

  function DaysInYear(y: int): int {
    if IsLeapYear(y) then 366 else 365
  }

  function DaysInMonth(y: int, monthIndex: int): int
    requires 0 <= monthIndex < 12
  {
    if monthIndex == 1 then (if IsLeapYear(y) then 29 else 28)
    else if monthIndex in {3, 5, 8, 10} then 30
    else 31
  }

  predicate ValidDate(d: Date) {
    0 <= d.monthIndex < 12 && 1 <= d.day <= DaysInMonth(d.year, d.monthIndex)
  }

  function DaysBeforeMonth(y: int, monthIndex: int): int
    requires 0 <= monthIndex < 12
  {
    [0, 31, 59, 90, 120, 151, 181, 212, 243, 273, 304, 334][monthIndex]
      + (if monthIndex >= 2 && IsLeapYear(y) then 1 else 0)
  }

  /** The months before a month and the month itself fit in the year. */
  lemma MonthsFitInYear(y: int, monthIndex: int)
    requires 0 <= monthIndex < 12
    ensures 0 <= DaysBeforeMonth(y, monthIndex)
    ensures DaysBeforeMonth(y, monthIndex) + DaysInMonth(y, monthIndex) <= DaysInYear(y)
  {
  }

  /** The days of the years before `y`, from year 1 on. */
  function DaysBeforeYear(y: int): int {
    365 * (y - 1) + (y - 1) / 4 - (y - 1) / 100 + (y - 1) / 400
  }

  lemma YearLength(y: int)
    ensures DaysBeforeYear(y + 1) == DaysBeforeYear(y) + DaysInYear(y)
  {
    DivStep(y, 4);
    DivStep(y, 100);
    DivStep(y, 400);
    if y % 100 == 0 {
      assert y == 100 * (y / 100);
      assert y == 4 * (25 * (y / 100));
    }
    if y % 400 == 0 {
      assert y == 400 * (y / 400);
      assert y == 100 * (4 * (y / 400));
    }
  }

  /** Passing a multiple of `k` adds one to the quotient by `k`. */
  lemma DivStep(y: int, k: int)
    requires k == 4 || k == 100 || k == 400
    ensures y / k - (y - 1) / k == if y % k == 0 then 1 else 0
  {
    if k == 4 {
    } else if k == 100 {
    } else {
    }
  }

  lemma {:induction false} DaysBeforeYearMonotone(a: int, b: int)
    requires a <= b
    ensures DaysBeforeYear(a) + 365 * (b - a) <= DaysBeforeYear(b)
    decreases b - a
  {
    if a < b {
      DaysBeforeYearMonotone(a, b - 1);
      YearLength(b - 1);
    }
  }

  /** Day `n` falls in year `y`. */
  predicate InYear(n: int, y: int) {
    DaysBeforeYear(y) < n <= DaysBeforeYear(y + 1)
  }

  lemma YearOfDayUnique(n: int, y1: int, y2: int)
    requires InYear(n, y1) && InYear(n, y2)
    ensures y1 == y2
  {
    if y1 < y2 {
      DaysBeforeYearMonotone(y1 + 1, y2);
    } else if y2 < y1 {
      DaysBeforeYearMonotone(y2 + 1, y1);
    }
  }

  function DayNumber(d: Date): int
    requires ValidDate(d)
  {
    DaysBeforeYear(d.year) + DaysBeforeMonth(d.year, d.monthIndex) + d.day
  }

  lemma DayNumberInYear(d: Date)
    requires ValidDate(d)
    ensures InYear(DayNumber(d), d.year)
  {
    MonthsFitInYear(d.year, d.monthIndex);
    YearLength(d.year);
  }

  /** `getUTCDay()`: 0 for Sunday, 1 for Monday, ..., 6 for Saturday. */
  function JsUtcDay(n: int): int {
    n % 7
  }

  /** `getUTCDay() || 7`: 1 for Monday, ..., 7 for Sunday. */
  function IsoWeekday(n: int): (w: int)
    ensures 1 <= w <= 7 && (n - w) % 7 == 0
  {
    var day := JsUtcDay(n);
    if day == 0 then 7 else day
  }

  /** The Monday starting the week of day `n`. */
  function MondayOf(n: int): (m: int)
    ensures m <= n < m + 7 && IsoWeekday(m) == 1
  {
    n - (IsoWeekday(n) - 1)
  }

  /** `setUTCDate(getUTCDate() + 4 - (getUTCDay() || 7))`: the Thursday of
      the week. */
  function ThursdayOf(n: int): (t: int)
    ensures t == MondayOf(n) + 3 && IsoWeekday(t) == 4
  {
    n + 4 - IsoWeekday(n)
  }

  /** `getUTCFullYear()` of the Thursday, which is the date's own year or a
      neighbour: the Thursday is at most three days away. */
  function ThursdayYear(d: Date): (y: int)
    requires ValidDate(d)
    ensures InYear(ThursdayOf(DayNumber(d)), y)
  {
    var t := ThursdayOf(DayNumber(d));
    DayNumberInYear(d);
    YearLength(d.year - 1);
    YearLength(d.year);
    YearLength(d.year + 1);
    if t <= DaysBeforeYear(d.year) then d.year - 1
    else if t > DaysBeforeYear(d.year + 1) then d.year + 1
    else d.year
  }

  const MillisPerDay: int := 86400000

  /** Day 719163 is 1970-01-01, where JavaScript's time value is 0. */
  const UnixEpochDay: int := 719163

  /** `Date.UTC(...)` for midnight at the start of day `n`. */
  function TimeValue(n: int): int {
    (n - UnixEpochDay) * MillisPerDay
  }

  /** `Math.ceil((((d - yearStart) / 86400000) + 1) / 7)` for the Thursday
      `t` and January 1 of its year. */
  function WeekNumber(d: Date): (w: int)
    requires ValidDate(d)
  {
    var t := ThursdayOf(DayNumber(d));
    var yearStart := DaysBeforeYear(ThursdayYear(d)) + 1;
    Ceil(((TimeValue(t) - TimeValue(yearStart)) as real / MillisPerDay as real + 1.0) / 7.0)
  }

  /** `getWeekIdentifier`. Years before 101 are excluded: `Date.UTC` reads
      years 0 to 99 as 1900 to 1999. */
  function WeekIdentifier(d: Date): (id: string)
    requires ValidDate(d) && d.year >= 101
    ensures IsIsoWeek(DayNumber(d), ThursdayYear(d), WeekNumber(d))
    ensures ThursdayYear(d) >= 100 && 1 <= WeekNumber(d) <= 53
    ensures id == NatToString(ThursdayYear(d)) + "-" + NatToString(WeekNumber(d))
  {
    WeekIdentifierIsIsoWeek(d);
    ThursdayYearPositive(d);
    WeekNumberRange(d);
    NatToString(ThursdayYear(d)) + "-" + NatToString(WeekNumber(d))
  }

  lemma ThursdayYearPositive(d: Date)
    requires ValidDate(d) && d.year >= 101
    ensures ThursdayYear(d) >= 100
  {
  }

  /** The week number is the Thursday's ordinal day in its year divided by
      seven, rounded up. */
  lemma WeekNumberIsOrdinalWeek(d: Date)
    requires ValidDate(d)
    ensures var o := ThursdayOf(DayNumber(d)) - DaysBeforeYear(ThursdayYear(d));
      WeekNumber(d) == (o + 6) / 7
  {
    var t := ThursdayOf(DayNumber(d));
    var o := t - DaysBeforeYear(ThursdayYear(d));
    var yearStart := DaysBeforeYear(ThursdayYear(d)) + 1;
    assert TimeValue(t) - TimeValue(yearStart) == (o - 1) * MillisPerDay;
    assert (TimeValue(t) - TimeValue(yearStart)) as real / MillisPerDay as real == (o - 1) as real;
    CeilOfSevenths(o);
  }

  lemma CeilOfSevenths(o: int)
    ensures Ceil(o as real / 7.0) == (o + 6) / 7
  {
    var q := (o + 6) / 7;
    assert 7 * q - 6 <= o <= 7 * q;
    assert (q - 1) as real < o as real / 7.0 <= q as real;
    assert (-(o as real / 7.0)).Floor == -q;
  }

  lemma WeekNumberRange(d: Date)
    requires ValidDate(d)
    ensures 1 <= WeekNumber(d) <= 53
  {
    WeekNumberIsOrdinalWeek(d);
    YearLength(ThursdayYear(d));
  }

  /** The Monday of ISO week 1 of year `y`: the week holding January 4. */
  function Week1Monday(y: int): int {
    MondayOf(DaysBeforeYear(y) + 4)
  }

  /** The ISO 8601 definition: day `n` lies in week `w` of week-numbering
      year `y` when it falls in the `w`-th seven-day block counted from the
      Monday of week 1 of `y`, before week 1 of `y + 1` begins. */
  predicate IsIsoWeek(n: int, y: int, w: int) {
    && Week1Monday(y) <= n < Week1Monday(y + 1)
    && w == (n - Week1Monday(y)) / 7 + 1
  }

  /** The first Thursday of a year is the one three days after the Monday of
      its week 1, within the first seven days of the year. */
  lemma FirstThursday(y: int)
    ensures var f := Week1Monday(y) + 3;
      DaysBeforeYear(y) < f <= DaysBeforeYear(y) + 7 && IsoWeekday(f) == 4
  {
    ThursdayNear(DaysBeforeYear(y));
  }

  /** The Thursday of the week of day `before + 4` is one of the seven days
      after `before`. */
  lemma ThursdayNear(before: int)
    ensures var f := MondayOf(before + 4) + 3;
      before < f <= before + 7 && IsoWeekday(f) == 4
  {
    assert MondayOf(before + 4) + 3 == ThursdayOf(before + 4);
  }

  /** A day belongs to the ISO week, within the Thursday's year, that the
      Thursday's ordinal day gives. */
  lemma ThursdayDecidesWeek(n: int, y: int)
    requires InYear(ThursdayOf(n), y)
    ensures IsIsoWeek(n, y, (ThursdayOf(n) - DaysBeforeYear(y) + 6) / 7)
  {
    var t := ThursdayOf(n);
    var wd := IsoWeekday(n);
    var f := Week1Monday(y) + 3;
    var g := Week1Monday(y + 1) + 3;
    FirstThursday(y);
    FirstThursday(y + 1);
    var o, fo := t - DaysBeforeYear(y), f - DaysBeforeYear(y);
    assert 1 <= fo <= 7;
    var q := SameWeekdayApart(t, f);
    assert t == f + 7 * q;
    assert q >= 0;
    assert o == fo + 7 * q;
    assert (o + 6) / 7 == q + 1;
    assert n - Week1Monday(y) == 7 * q + (wd - 1);
    var p := SameWeekdayApart(g, t);
    assert p >= 1;
  }

  /** Two days with the same weekday are a whole number of weeks apart. */
  lemma SameWeekdayApart(a: int, b: int) returns (q: int)
    requires IsoWeekday(a) == IsoWeekday(b)
    ensures a == b + 7 * q
  {
    q := (a - b) / 7;
    assert (a - IsoWeekday(a)) % 7 == 0 && (b - IsoWeekday(b)) % 7 == 0;
    assert a % 7 == b % 7;
  }

  /** The source's computation agrees with the ISO 8601 definition. */
  lemma WeekIdentifierIsIsoWeek(d: Date)
    requires ValidDate(d)
    ensures IsIsoWeek(DayNumber(d), ThursdayYear(d), WeekNumber(d))
  {
    WeekNumberIsOrdinalWeek(d);
    ThursdayDecidesWeek(DayNumber(d), ThursdayYear(d));
  }

  /** The Monday of a day's week, from its ISO year and week. */
  lemma MondayFromIsoWeek(n: int, y: int, w: int)
    requires IsIsoWeek(n, y, w)
    ensures MondayOf(n) == Week1Monday(y) + 7 * (w - 1)
  {
    MondayFromBlock(n, Week1Monday(y));
  }

  /** Counting whole weeks from a Monday `start` finds the Monday of the
      week of `n`. */
  lemma MondayFromBlock(n: int, start: int)
    requires IsoWeekday(start) == 1
    ensures MondayOf(n) == start + 7 * ((n - start) / 7)
  {
    var m := MondayOf(n);
    var q := SameWeekdayApart(m, start);
    var r := n - m;
    assert 0 <= r < 7;
    assert n - start == 7 * q + r;
    assert (n - start) / 7 == q;
  }

  /** Dates of one week share the Thursday, hence its year and ordinal. */
  lemma SameWeekSameNumbering(a: Date, b: Date)
    requires ValidDate(a) && ValidDate(b)
    requires MondayOf(DayNumber(a)) == MondayOf(DayNumber(b))
    ensures ThursdayYear(a) == ThursdayYear(b) && WeekNumber(a) == WeekNumber(b)
  {
    var t := ThursdayOf(DayNumber(a));
    assert t == ThursdayOf(DayNumber(b));
    YearOfDayUnique(t, ThursdayYear(a), ThursdayYear(b));
    WeekNumberIsOrdinalWeek(a);
    WeekNumberIsOrdinalWeek(b);
  }

  /** Two dates have the same identifier exactly when they share a
      Monday-to-Sunday week. */
  lemma SameIdentifierIffSameWeek(a: Date, b: Date)
    requires ValidDate(a) && a.year >= 101
    requires ValidDate(b) && b.year >= 101
    ensures WeekIdentifier(a) == WeekIdentifier(b) <==> MondayOf(DayNumber(a)) == MondayOf(DayNumber(b))
  {
    if WeekIdentifier(a) == WeekIdentifier(b) {
      ThursdayYearPositive(a);
      ThursdayYearPositive(b);
      WeekNumberRange(a);
      WeekNumberRange(b);
      DashedPairInjective(ThursdayYear(a), WeekNumber(a), ThursdayYear(b), WeekNumber(b));
      WeekIdentifierIsIsoWeek(a);
      WeekIdentifierIsIsoWeek(b);
      MondayFromIsoWeek(DayNumber(a), ThursdayYear(a), WeekNumber(a));
      MondayFromIsoWeek(DayNumber(b), ThursdayYear(b), WeekNumber(b));
    }
    if MondayOf(DayNumber(a)) == MondayOf(DayNumber(b)) {
      SameWeekSameNumbering(a, b);
    }
  }

  /** `<a>-<b>` determines `a` and `b`: the digits contain no dash. */
  lemma DashedPairInjective(a: nat, b: nat, c: nat, d: nat)
    requires NatToString(a) + "-" + NatToString(b) == NatToString(c) + "-" + NatToString(d)
    ensures a == c && b == d
  {
    DashSplit(NatToString(a), NatToString(b), NatToString(c), NatToString(d));
    NatToStringInjective(a, c);
    NatToStringInjective(b, d);
  }

  lemma DashSplit(x: string, y: string, u: string, v: string)
    requires AllDigits(x) && AllDigits(u)
    requires x + "-" + y == u + "-" + v
    ensures x == u && y == v
  {
    var l := x + "-" + y;
    var r := u + "-" + v;
    if |x| < |u| {
      ShorterDigitsDiffer(x, y, u, v);
    } else if |u| < |x| {
      ShorterDigitsDiffer(u, v, x, y);
    }
    assert x == l[..|x|] && u == r[..|u|];
    assert y == l[|x| + 1..] && v == r[|u| + 1..];
  }

  lemma ShorterDigitsDiffer(x: string, y: string, u: string, v: string)
    requires AllDigits(u) && |x| < |u|
    ensures x + "-" + y != u + "-" + v
  {
    assert (x + "-" + y)[|x|] == '-';
    assert (u + "-" + v)[|x|] == u[|x|];
  }

  /** The identifier of a date whose week-numbering year and week are known. */
  lemma IdentifierFrom(d: Date, y: nat, w: nat)
    requires ValidDate(d) && d.year >= 101
    requires ThursdayYear(d) == y && WeekNumber(d) == w
    ensures WeekIdentifier(d) == NatToString(y) + "-" + NatToString(w)
  {
  }

  /** The digits of the numbers in the examples below. */
  lemma Printed(n: nat, digits: string)
    requires n in {1, 41, 53, 2020, 2025, 2026}
    requires digits == if n < 10 then "1" else if n == 41 then "41" else if n == 53 then "53"
                       else if n == 2020 then "2020" else if n == 2025 then "2025" else "2026"
    ensures NatToString(n) == digits
  {
    if n >= 100 {
      assert NatToString(20) == "20";
      assert NatToString(202) == "202";
    }
  }

  /** Example: Saturday 2026-10-10 is in week 41 of 2026. */
  lemma WeekIdentifierExample2026()
    ensures WeekIdentifier(Date(2026, 9, 10)) == "2026-41"
  {
    Numbering2026();
    Printed(2026, "2026");
    Printed(41, "41");
    IdentifierFrom(Date(2026, 9, 10), 2026, 41);
  }

  lemma Numbering2026()
    ensures ThursdayYear(Date(2026, 9, 10)) == 2026 && WeekNumber(Date(2026, 9, 10)) == 41
  {
    var d := Date(2026, 9, 10);
    assert DaysBeforeYear(2026) == 739616;
    assert DayNumber(d) == 739899;
    assert ThursdayOf(739899) == 739897;
    WeekNumberIsOrdinalWeek(d);
  }

  /** Example: Friday 2021-01-01 still belongs to week 53 of 2020. */
  lemma WeekIdentifierExample2021()
    ensures WeekIdentifier(Date(2021, 0, 1)) == "2020-53"
  {
    Numbering2021();
    Printed(2020, "2020");
    Printed(53, "53");
    IdentifierFrom(Date(2021, 0, 1), 2020, 53);
  }

  lemma Numbering2021()
    ensures ThursdayYear(Date(2021, 0, 1)) == 2020 && WeekNumber(Date(2021, 0, 1)) == 53
  {
    var d := Date(2021, 0, 1);
    assert DaysBeforeYear(2021) == 737790;
    assert DayNumber(d) == 737791;
    assert ThursdayOf(737791) == 737790;
    assert DaysBeforeYear(2020) == 737424;
    assert ThursdayYear(d) == 2020;
    WeekNumberIsOrdinalWeek(d);
  }

  /** Example: Monday 2024-12-30 already belongs to week 1 of 2025. */
  lemma WeekIdentifierExample2024()
    ensures WeekIdentifier(Date(2024, 11, 30)) == "2025-1"
  {
    Numbering2024();
    Printed(2025, "2025");
    IdentifierFrom(Date(2024, 11, 30), 2025, 1);
  }

  lemma Numbering2024()
    ensures ThursdayYear(Date(2024, 11, 30)) == 2025 && WeekNumber(Date(2024, 11, 30)) == 1
  {
    var d := Date(2024, 11, 30);
    assert DaysBeforeYear(2024) == 738885;
    assert DayNumber(d) == 739250;
    assert ThursdayOf(739250) == 739253;
    assert DaysBeforeYear(2025) == 739251;
    assert ThursdayYear(d) == 2025;
    WeekNumberIsOrdinalWeek(d);
  }
}
