/**
 Dates and times as Python's `datetime` counts them (proleptic Gregorian, years 1 to 9999),
 and the calendar periods the retention tiers group snapshots by.
 */
module Calendar {

  datatype Date = Date(year: int, month: int, day: int)

  /** A UTC time: its date and the microseconds since midnight. */
  datatype DateTime = DateTime(date: Date, micros: int)

  const MIN_YEAR := 1
  const MAX_YEAR := 9999
  const SECOND := 1_000_000
  const DAY := 86_400 * SECOND

  predicate IsLeap(y: int) {
    y % 4 == 0 && (y % 100 != 0 || y % 400 == 0)
  }

  function DaysInMonth(y: int, m: int): int {
    if m == 2 then (if IsLeap(y) then 29 else 28)
    else if m == 4 || m == 6 || m == 9 || m == 11 then 30
    else 31
  }

  predicate ValidDate(d: Date) {
    MIN_YEAR <= d.year <= MAX_YEAR && 1 <= d.month <= 12 && 1 <= d.day <= DaysInMonth(d.year, d.month)
  }

  predicate Valid(t: DateTime) {
    ValidDate(t.date) && 0 <= t.micros < DAY
  }

  function DaysBeforeYear(y: int): int {
    (y - 1) * 365 + (y - 1) / 4 - (y - 1) / 100 + (y - 1) / 400
  }

  function DaysBeforeMonth(y: int, m: int): int
    decreases m
  {
    if m <= 1 then 0 else DaysBeforeMonth(y, m - 1) + DaysInMonth(y, m - 1)
  }

  /** `date.toordinal()`: 1 January of year 1, a Monday, is day 1. */
  function Ordinal(d: Date): int {
    DaysBeforeYear(d.year) + DaysBeforeMonth(d.year, d.month) + d.day
  }

  /** Microseconds on the line every time lies on; differences are what `timedelta` measures. */
  function Instant(t: DateTime): int {
    Ordinal(t.date) * DAY + t.micros
  }

  predicate DateBefore(a: Date, b: Date) {
    a.year < b.year || (a.year == b.year && (a.month < b.month || (a.month == b.month && a.day < b.day)))
  }

  // ---- Ordinals count days ----

  lemma YearLength(y: int)
    ensures DaysBeforeYear(y + 1) == DaysBeforeYear(y) + (if IsLeap(y) then 366 else 365)
  {
    assert (y % 400 == 0) ==> y % 100 == 0;
    assert (y % 100 == 0) ==> y % 4 == 0;
    assert y / 4 - (y - 1) / 4 == (if y % 4 == 0 then 1 else 0);
    assert y / 100 - (y - 1) / 100 == (if y % 100 == 0 then 1 else 0);
    assert y / 400 - (y - 1) / 400 == (if y % 400 == 0 then 1 else 0);
  }

  lemma {:induction false} YearsGrow(a: int, b: int)
    requires a <= b
    ensures DaysBeforeYear(a) + 365 * (b - a) <= DaysBeforeYear(b)
    decreases b - a
  {
    if a < b {
      YearsGrow(a, b - 1);
      YearLength(b - 1);
    }
  }

  lemma MonthTable(y: int)
    ensures var leap := if IsLeap(y) then 1 else 0;
      && DaysBeforeMonth(y, 1) == 0 && DaysBeforeMonth(y, 2) == 31
      && DaysBeforeMonth(y, 3) == 59 + leap && DaysBeforeMonth(y, 4) == 90 + leap
      && DaysBeforeMonth(y, 5) == 120 + leap && DaysBeforeMonth(y, 6) == 151 + leap
      && DaysBeforeMonth(y, 7) == 181 + leap && DaysBeforeMonth(y, 8) == 212 + leap
      && DaysBeforeMonth(y, 9) == 243 + leap && DaysBeforeMonth(y, 10) == 273 + leap
      && DaysBeforeMonth(y, 11) == 304 + leap && DaysBeforeMonth(y, 12) == 334 + leap
  {
    assert DaysBeforeMonth(y, 2) == DaysBeforeMonth(y, 1) + DaysInMonth(y, 1);
    assert DaysBeforeMonth(y, 3) == DaysBeforeMonth(y, 2) + DaysInMonth(y, 2);
    assert DaysBeforeMonth(y, 4) == DaysBeforeMonth(y, 3) + DaysInMonth(y, 3);
    assert DaysBeforeMonth(y, 5) == DaysBeforeMonth(y, 4) + DaysInMonth(y, 4);
    assert DaysBeforeMonth(y, 6) == DaysBeforeMonth(y, 5) + DaysInMonth(y, 5);
    assert DaysBeforeMonth(y, 7) == DaysBeforeMonth(y, 6) + DaysInMonth(y, 6);
    assert DaysBeforeMonth(y, 8) == DaysBeforeMonth(y, 7) + DaysInMonth(y, 7);
    assert DaysBeforeMonth(y, 9) == DaysBeforeMonth(y, 8) + DaysInMonth(y, 8);
    assert DaysBeforeMonth(y, 10) == DaysBeforeMonth(y, 9) + DaysInMonth(y, 9);
    assert DaysBeforeMonth(y, 11) == DaysBeforeMonth(y, 10) + DaysInMonth(y, 10);
    assert DaysBeforeMonth(y, 12) == DaysBeforeMonth(y, 11) + DaysInMonth(y, 11);
  }

  lemma {:induction false} MonthsGrow(y: int, a: int, b: int)
    requires 1 <= a < b <= 12
    ensures DaysBeforeMonth(y, a) + DaysInMonth(y, a) <= DaysBeforeMonth(y, b)
    decreases b - a
  {
    if a < b - 1 {
      MonthsGrow(y, a, b - 1);
    }
  }

  lemma OrdinalWithinYear(d: Date)
    requires ValidDate(d)
    ensures DaysBeforeYear(d.year) < Ordinal(d) <= DaysBeforeYear(d.year + 1)
  {
    MonthTable(d.year);
    YearLength(d.year);
  }

  /** The ordinal orders dates exactly as year, month and day do. */
  lemma OrdinalOrder(a: Date, b: Date)
    requires ValidDate(a) && ValidDate(b)
    ensures DateBefore(a, b) <==> Ordinal(a) < Ordinal(b)
    ensures a == b <==> Ordinal(a) == Ordinal(b)
  {
    if DateBefore(a, b) {
      OrdinalStep(a, b);
    } else if DateBefore(b, a) {
      OrdinalStep(b, a);
    }
  }

  lemma OrdinalStep(a: Date, b: Date)
    requires ValidDate(a) && ValidDate(b) && DateBefore(a, b)
    ensures Ordinal(a) < Ordinal(b)
  {
    if a.year < b.year {
      OrdinalWithinYear(a);
      OrdinalWithinYear(b);
      YearsGrow(a.year + 1, b.year);
    } else if a.month < b.month {
      MonthsGrow(a.year, a.month, b.month);
    }
  }

  // ---- The periods of the retention tiers ----

  datatype Tier = Daily | Weekly | Monthly

  /** A tier's bucket key: Python compares the tuples (year, month, day), (ISO year, week), (year, month). */
  datatype Bucket = Bucket(major: int, minor: int, last: int)

  predicate BucketBefore(a: Bucket, b: Bucket) {
    || a.major < b.major
    || (a.major == b.major && (a.minor < b.minor || (a.minor == b.minor && a.last < b.last)))
  }

  /** The Monday of the first week with at least four days on or after `firstDay`. */
  function FirstMonday(firstDay: int): int {
    var firstWeekday := (firstDay + 6) % 7;
    if firstWeekday > 3 then firstDay - firstWeekday + 7 else firstDay - firstWeekday
  }

  /** The ordinal of the Monday that starts week 1 of ISO year `y`: the week that holds 4 January. */
  function Week1Monday(y: int): int {
    FirstMonday(DaysBeforeYear(y) + 1)
  }

  /** `date.isocalendar()[:2]` */
  function IsoWeek(d: Date): Bucket {
    var today := Ordinal(d);
    var week := (today - Week1Monday(d.year)) / 7;
    if week < 0 then
      Bucket(d.year - 1, (today - Week1Monday(d.year - 1)) / 7 + 1, 0)
    else if week >= 52 && today >= Week1Monday(d.year + 1) then
      Bucket(d.year + 1, 1, 0)
    else
      Bucket(d.year, week + 1, 0)
  }

  function BucketOf(tier: Tier, t: DateTime): Bucket {
    match tier
    case Daily => Bucket(t.date.year, t.date.month, t.date.day)
    case Weekly => IsoWeek(t.date)
    case Monthly => Bucket(t.date.year, t.date.month, 0)
  }

  /** The week a day lies in, counting Monday-to-Sunday weeks from that of 1 January of year 1. */
  function WeekIndex(ordinal: int): int {
    (ordinal - 1) / 7
  }

  lemma FirstMondayPlace(firstDay: int)
    ensures (FirstMonday(firstDay) - 1) % 7 == 0
    ensures firstDay - 3 <= FirstMonday(firstDay) <= firstDay + 3
  {
    var k, r := (firstDay + 6) / 7, (firstDay + 6) % 7;
    assert firstDay + 6 == 7 * k + r;
    assert firstDay - r - 1 == 7 * (k - 1);
    assert (7 * (k - 1)) % 7 == 0 && (7 * k) % 7 == 0;
  }

  lemma Week1MondayPlace(y: int)
    ensures (Week1Monday(y) - 1) % 7 == 0
    ensures DaysBeforeYear(y) - 2 <= Week1Monday(y) <= DaysBeforeYear(y) + 4
  {
    FirstMondayPlace(DaysBeforeYear(y) + 1);
  }

  /** ISO years are consecutive runs of whole weeks, at least 52 of them. */
  lemma IsoYearLength(y: int)
    ensures Week1Monday(y) + 364 <= Week1Monday(y + 1)
  {
    YearLength(y);
    Week1MondayPlace(y);
    Week1MondayPlace(y + 1);
    var k, l := (Week1Monday(y) - 1) / 7, (Week1Monday(y + 1) - 1) / 7;
    assert Week1Monday(y) == 7 * k + 1 && Week1Monday(y + 1) == 7 * l + 1;
    assert 7 * (l - k) >= 359;
  }

  lemma {:induction false} IsoYearsGrow(a: int, b: int)
    requires a <= b
    ensures Week1Monday(a) + 364 * (b - a) <= Week1Monday(b)
    decreases b - a
  {
    if a < b {
      IsoYearsGrow(a, b - 1);
      IsoYearLength(b - 1);
    }
  }

  /** The days of a calendar year lie within its own ISO year and the two beside it. */
  lemma IsoYearsAround(y: int, day: int)
    requires DaysBeforeYear(y) < day <= DaysBeforeYear(y + 1)
    ensures Week1Monday(y - 1) <= day < Week1Monday(y + 2)
    ensures day < Week1Monday(y) + 364 ==> day < Week1Monday(y + 1)
  {
    IsoYearLength(y);
    YearLength(y - 1);
    YearLength(y + 1);
    Week1MondayPlace(y - 1);
    Week1MondayPlace(y + 2);
  }

  /** The key names the ISO year whose weeks hold the day, and counts weeks from its first Monday. */
  lemma IsoWeekPlace(d: Date)
    requires ValidDate(d)
    ensures var key := IsoWeek(d);
      && Week1Monday(key.major) <= Ordinal(d) < Week1Monday(key.major + 1)
      && key.minor == WeekIndex(Ordinal(d)) - WeekIndex(Week1Monday(key.major)) + 1
      && key.minor >= 1 && key.last == 0
  {
    var today, y := Ordinal(d), d.year;
    var before, monday, after, later := Week1Monday(y - 1), Week1Monday(y), Week1Monday(y + 1), Week1Monday(y + 2);
    OrdinalWithinYear(d);
    IsoYearsAround(y, today);
    Week1MondayPlace(IsoWeek(d).major);
    WeeksFrom(today, Week1Monday(IsoWeek(d).major));
    assert (today - monday) / 7 < 0 <==> today < monday;
    assert (today - monday) / 7 >= 52 <==> today >= monday + 364;
    if IsoWeek(d).major == y + 1 {
      IsoYearLength(y + 1);
      FirstWeekOnly(today, after, y);
    }
  }

  /** The days of year `y` that lie in the next ISO year lie in its first week. */
  lemma FirstWeekOnly(day: int, monday: int, y: int)
    requires day <= DaysBeforeYear(y + 1) && monday == Week1Monday(y + 1) <= day
    ensures (day - monday) / 7 == 0
  {
    Week1MondayPlace(y + 1);
  }

  lemma WeeksFrom(day: int, monday: int)
    requires (monday - 1) % 7 == 0
    ensures (day - monday) / 7 == WeekIndex(day) - WeekIndex(monday)
  {
    var k := (monday - 1) / 7;
    assert monday == 7 * k + 1;
    assert (day - 1 - 7 * k) / 7 == (day - 1) / 7 - k;
  }

  /** A day from one Monday up to a later one lies in a week from the first up to the one before the other. */
  lemma WeekBetween(day: int, k: int, l: int)
    requires 7 * k + 1 <= day < 7 * l + 1
    ensures k <= WeekIndex(day) < l
  {
  }

  /**
   Section 4.1.4 of ISO 8601:2004 (calendar week number): a week belongs to the year that
   holds its Thursday, and week 1 is the one with the year's first Thursday.
   */
  lemma IsoWeekByThursday(d: Date)
    requires ValidDate(d)
    ensures var thursday := 7 * WeekIndex(Ordinal(d)) + 4; var key := IsoWeek(d);
      && DaysBeforeYear(key.major) < thursday <= DaysBeforeYear(key.major + 1)
      && key.minor == (thursday - DaysBeforeYear(key.major) - 1) / 7 + 1
  {
    IsoWeekPlace(d);
    var key := IsoWeek(d);
    Week1MondayPlace(key.major);
    Week1MondayPlace(key.major + 1);
    var monday := 7 * WeekIndex(Ordinal(d)) + 1;
    var first := Week1Monday(key.major);
    var k := WeekIndex(first);
    assert first == 7 * k + 1;
    var l := WeekIndex(Week1Monday(key.major + 1));
    assert Week1Monday(key.major + 1) == 7 * l + 1;
    WeekBetween(Ordinal(d), k, l);
    assert monday + 3 - DaysBeforeYear(key.major) - 1 == 7 * (key.minor - 1) + (first + 2 - DaysBeforeYear(key.major));
  }

  /** Two days share the weekly key exactly when they lie in the same Monday-to-Sunday week, year ends included. */
  lemma SameIsoWeek(a: Date, b: Date)
    requires ValidDate(a) && ValidDate(b)
    ensures IsoWeek(a) == IsoWeek(b) <==> WeekIndex(Ordinal(a)) == WeekIndex(Ordinal(b))
    ensures BucketBefore(IsoWeek(a), IsoWeek(b)) <==> WeekIndex(Ordinal(a)) < WeekIndex(Ordinal(b))
  {
    IsoWeekPlace(a);
    IsoWeekPlace(b);
    var x, y := IsoWeek(a).major, IsoWeek(b).major;
    if x < y {
      IsoWeekApart(a, b);
    } else if y < x {
      IsoWeekApart(b, a);
    }
  }

  lemma IsoWeekApart(a: Date, b: Date)
    requires ValidDate(a) && ValidDate(b) && IsoWeek(a).major < IsoWeek(b).major
    ensures WeekIndex(Ordinal(a)) < WeekIndex(Ordinal(b))
  {
    IsoWeekPlace(a);
    IsoWeekPlace(b);
    IsoYearsGrow(IsoWeek(a).major + 1, IsoWeek(b).major);
    Week1MondayPlace(IsoWeek(b).major);
    BorderSplitsWeeks(Ordinal(a), Week1Monday(IsoWeek(b).major), Ordinal(b));
  }

  lemma BorderSplitsWeeks(before: int, monday: int, after: int)
    requires before < monday <= after && (monday - 1) % 7 == 0
    ensures WeekIndex(before) < WeekIndex(after)
  {
    var k := (monday - 1) / 7;
    assert monday == 7 * k + 1;
  }

  /** Every tier's key grows with time: later times never get a smaller bucket. */
  lemma BucketsGrow(tier: Tier, s: DateTime, t: DateTime)
    requires Valid(s) && Valid(t) && Instant(s) <= Instant(t)
    ensures !BucketBefore(BucketOf(tier, t), BucketOf(tier, s))
  {
    OrdinalOrder(s.date, t.date);
    DayOfInstant(Ordinal(s.date), s.micros, Ordinal(t.date), t.micros);
    OrdinalOrder(t.date, s.date);
    SameIsoWeek(t.date, s.date);
  }

  lemma DayOfInstant(a: int, x: int, b: int, y: int)
    requires 0 <= x < DAY && 0 <= y < DAY && a * DAY + x <= b * DAY + y
    ensures a <= b
  {
  }

  lemma BucketOrder()
    ensures forall a, b :: a == b || BucketBefore(a, b) || BucketBefore(b, a)
    ensures forall a, b, c :: BucketBefore(a, b) && BucketBefore(b, c) ==> BucketBefore(a, c)
    ensures forall a :: !BucketBefore(a, a)
  {
  }
}
