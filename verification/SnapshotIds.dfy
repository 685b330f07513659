/** Snapshot ids: how a run names its snapshot, and what a name tells about its run. */
module SnapshotIds {
  import opened Wrappers
  import opened Calendar
  import opened Texts
  import Order

  const STAMP_LENGTH := 19

  // ---- Writing an id ----

  predicate IsSlugChar(c: char) {
    'A' <= c <= 'Z' || 'a' <= c <= 'z' || '0' <= c <= '9' || c == '_' || c == '-'
  }

  predicate IsSlug(s: string) {
    forall i :: 0 <= i < |s| ==> IsSlugChar(s[i])
  }

  function Dashed(name: string): (r: string)
    ensures |r| == |name|
    ensures forall i :: 0 <= i < |name| ==> r[i] == if IsSlugChar(name[i]) then name[i] else '-'
  {
    if name == "" then "" else [if IsSlugChar(name[0]) then name[0] else '-'] + Dashed(name[1..])
  }

  function JobSlug(name: string): (r: string)
    ensures r != "" && IsSlug(r)
    ensures name != "" && IsSlug(name) ==> r == name
  {
    var dashed := Dashed(name);
    if dashed == "" then "-" else dashed
  }

  function Digit(d: int): char
    requires 0 <= d <= 9
  {
    '0' + d as char
  }

  function TwoDigits(n: int): (r: string)
    requires 0 <= n <= 99
    ensures |r| == 2
  {
    [Digit(n / 10), Digit(n % 10)]
  }

  function FourDigits(n: int): (r: string)
    requires 0 <= n <= 9999
    ensures |r| == 4
  {
    TwoDigits(n / 100) + TwoDigits(n % 100)
  }

  function SecondOfDay(t: DateTime): int {
    t.micros / SECOND
  }

  /** The start of the second a time lies in. */
  function WholeSecond(t: DateTime): DateTime {
    DateTime(t.date, SecondOfDay(t) * SECOND)
  }

  /** The date part of an id, then the time part: `%Y-%m-%d` and `%H-%M-%S`. */
  function DateText(d: Date): (r: string)
    requires ValidDate(d)
    ensures |r| == 10
  {
    FourDigits(d.year) + "-" + TwoDigits(d.month) + "-" + TwoDigits(d.day)
  }

  function TimeText(second: int): (r: string)
    requires 0 <= second < 86_400
    ensures |r| == 8
  {
    TwoDigits(second / 3600) + "-" + TwoDigits(second / 60 % 60) + "-" + TwoDigits(second % 60)
  }

  /** `now.strftime("%Y-%m-%d_%H-%M-%S")`, for a year of four digits. */
  function Stamp(now: DateTime): (r: string)
    requires Valid(now)
    ensures |r| == STAMP_LENGTH
  {
    DateText(now.date) + "_" + TimeText(SecondOfDay(now))
  }

  function Suffix(job: Option<string>): string {
    match job
    case None => ""
    case Some(name) => "_" + JobSlug(name)
  }

  function NewSnapshotId(now: DateTime, job: Option<string>): string
    requires Valid(now)
  {
    Stamp(now) + Suffix(job)
  }

  // ---- Reading an id ----

  function DigitValue(c: char): int {
    c as int - '0' as int
  }

  datatype Hit = Hit(value: int, next: nat)

  /** A numeric field of `strptime`: two digits if two follow, else one; the value must be in range. */
  function Field(s: string, i: nat, lo: int, hi: int): Option<Hit> {
    if i < |s| && IsDigit(s[i]) then
      var hit := if i + 1 < |s| && IsDigit(s[i + 1]) then Hit(10 * DigitValue(s[i]) + DigitValue(s[i + 1]), i + 2)
                 else Hit(DigitValue(s[i]), i + 1);
      if lo <= hit.value <= hi then Some(hit) else None
    else None
  }

  /** `%d` also takes a blank and one digit. */
  function DayField(s: string, i: nat): Option<Hit> {
    if i + 1 < |s| && s[i] == ' ' && '1' <= s[i + 1] <= '9' then Some(Hit(DigitValue(s[i + 1]), i + 2))
    else Field(s, i, 1, 31)
  }

  predicate At(s: string, i: nat, c: char) {
    i < |s| && s[i] == c
  }

  /** `datetime.strptime(s, "%Y-%m-%d_%H-%M-%S")`; None where it raises ValueError. */
  function ParseStamp(s: string): Option<DateTime> {
    if |s| < 4 || !(forall i :: 0 <= i < 4 ==> IsDigit(s[i])) || !At(s, 4, '-') then None
    else
      var year := 1000 * DigitValue(s[0]) + 100 * DigitValue(s[1]) + 10 * DigitValue(s[2]) + DigitValue(s[3]);
      var month :- Field(s, 5, 1, 12);
      if !At(s, month.next, '-') then None
      else
        var day :- DayField(s, month.next + 1);
        if !At(s, day.next, '_') then None
        else
          var hour :- Field(s, day.next + 1, 0, 23);
          if !At(s, hour.next, '-') then None
          else
            var minute :- Field(s, hour.next + 1, 0, 59);
            if !At(s, minute.next, '-') then None
            else
              var second :- Field(s, minute.next + 1, 0, 59);
              var date := Date(year, month.value, day.value);
              if second.next == |s| && ValidDate(date) then
                Some(DateTime(date, (3600 * hour.value + 60 * minute.value + second.value) * SECOND))
              else None
  }

  datatype Parsed = NotGenerated | Generated(when: DateTime, slug: Option<string>)

  function ParseSnapshotId(sid: string): (r: Parsed)
    ensures r.Generated? && r.slug.Some? ==> r.slug.value != "" && IsSlug(r.slug.value)
  {
    var cut := if |sid| < STAMP_LENGTH then |sid| else STAMP_LENGTH;
    match ParseStamp(sid[..cut])
    case None => NotGenerated
    case Some(when) =>
      var rest := sid[cut..];
      if rest == "" then Generated(when, None)
      else if rest[0] == '_' && rest[1..] != "" && IsSlug(rest[1..]) then Generated(when, Some(rest[1..]))
      else NotGenerated
  }

  function SlugOf(sid: string): Option<string> {
    match ParseSnapshotId(sid)
    case NotGenerated => None
    case Generated(_, slug) => slug
  }

  // ---- What an id that names a job looks like ----

  /** A character a time stamp may hold, the blank before a one-digit day included. */
  predicate IsStampChar(c: char) {
    IsDigit(c) || c == '-' || c == '_' || c == ' '
  }

  /** The text between two points holds only such characters. */
  predicate IsStampText(s: string, from: nat, to: nat) {
    from <= to <= |s| && forall i :: from <= i < to ==> IsStampChar(s[i])
  }

  lemma FieldText(s: string, i: nat, lo: int, hi: int)
    ensures Field(s, i, lo, hi).Some? ==> IsStampText(s, i, Field(s, i, lo, hi).value.next)
  {
  }

  lemma DayText(s: string, i: nat)
    ensures DayField(s, i).Some? ==> IsStampText(s, i, DayField(s, i).value.next)
  {
    FieldText(s, i, 1, 31);
  }

  /** A field, and the separator after it. */
  lemma NextText(s: string, from: nat, to: nat)
    requires IsStampText(s, 0, from) && IsStampText(s, from, to) && (At(s, to, '-') || At(s, to, '_'))
    ensures IsStampText(s, 0, to + 1)
  {
  }

  lemma StampText(s: string)
    ensures ParseStamp(s).Some? ==> IsStampText(s, 0, |s|)
  {
    if ParseStamp(s).Some? {
      assert IsStampText(s, 0, 5);
      var month, day := Field(s, 5, 1, 12).value, DayField(s, Field(s, 5, 1, 12).value.next + 1).value;
      var hour := Field(s, day.next + 1, 0, 23).value;
      var minute := Field(s, hour.next + 1, 0, 59).value;
      FieldText(s, 5, 1, 12);
      NextText(s, 5, month.next);
      DayText(s, month.next + 1);
      NextText(s, month.next + 1, day.next);
      FieldText(s, day.next + 1, 0, 23);
      NextText(s, day.next + 1, hour.next);
      FieldText(s, hour.next + 1, 0, 59);
      NextText(s, hour.next + 1, minute.next);
      FieldText(s, minute.next + 1, 0, 59);
    }
  }

  /** An id that names a job has only characters of time stamps and slugs. */
  lemma NamedIdText(sid: string)
    requires SlugOf(sid).Some?
    ensures forall i :: 0 <= i < |sid| ==> IsStampChar(sid[i]) || IsSlugChar(sid[i])
  {
    var cut := if |sid| < STAMP_LENGTH then |sid| else STAMP_LENGTH;
    StampText(sid[..cut]);
    forall i | 0 <= i < |sid| ensures IsStampChar(sid[i]) || IsSlugChar(sid[i]) {
      if i < cut {
        assert sid[i] == sid[..cut][i];
      } else if i > cut {
        assert sid[i] == sid[cut..][1..][i - cut - 1];
      } else {
        assert sid[i] == sid[cut..][0];
      }
    }
  }

  // ---- Reading undoes writing ----

  lemma FieldReads(s: string, i: nat, n: int, lo: int, hi: int)
    requires 0 <= n <= 99 && lo <= n <= hi && i + 2 <= |s| && s[i..i + 2] == TwoDigits(n)
    ensures Field(s, i, lo, hi) == Some(Hit(n, i + 2))
    ensures IsDigit(s[i]) && IsDigit(s[i + 1]) && 10 * DigitValue(s[i]) + DigitValue(s[i + 1]) == n
  {
    assert s[i] == s[i..i + 2][0] && s[i + 1] == s[i..i + 2][1];
  }

  lemma StampFields(now: DateTime)
    requires Valid(now)
    ensures var s, d, n := Stamp(now), now.date, SecondOfDay(now);
      && s[0..2] == TwoDigits(d.year / 100) && s[2..4] == TwoDigits(d.year % 100)
      && s[4] == '-' && s[5..7] == TwoDigits(d.month) && s[7] == '-' && s[8..10] == TwoDigits(d.day)
      && s[10] == '_' && s[11..13] == TwoDigits(n / 3600) && s[13] == '-'
      && s[14..16] == TwoDigits(n / 60 % 60) && s[16] == '-' && s[17..19] == TwoDigits(n % 60)
  {
    var s, d, n := Stamp(now), now.date, SecondOfDay(now);
    assert s[0..10] == DateText(d) && s[11..19] == TimeText(n);
    DateFields(d);
    TimeFields(n);
    assert s[0..2] == s[0..10][0..2] && s[2..4] == s[0..10][2..4] && s[4] == s[0..10][4];
    assert s[5..7] == s[0..10][5..7] && s[7] == s[0..10][7] && s[8..10] == s[0..10][8..10];
    assert s[11..13] == s[11..19][0..2] && s[13] == s[11..19][2] && s[14..16] == s[11..19][3..5];
    assert s[16] == s[11..19][5] && s[17..19] == s[11..19][6..8];
  }

  lemma DateFields(d: Date)
    requires ValidDate(d)
    ensures var s := DateText(d);
      && s[0..2] == TwoDigits(d.year / 100) && s[2..4] == TwoDigits(d.year % 100) && s[4] == '-'
      && s[5..7] == TwoDigits(d.month) && s[7] == '-' && s[8..10] == TwoDigits(d.day)
  {
  }

  lemma TimeFields(n: int)
    requires 0 <= n < 86_400
    ensures var s := TimeText(n);
      && s[0..2] == TwoDigits(n / 3600) && s[2] == '-'
      && s[3..5] == TwoDigits(n / 60 % 60) && s[5] == '-' && s[6..8] == TwoDigits(n % 60)
  {
  }

  /** `strptime` reads back the whole second `strftime` wrote. */
  lemma StampRoundTrip(now: DateTime)
    requires Valid(now)
    ensures ParseStamp(Stamp(now)) == Some(WholeSecond(now))
  {
    var s, d, n := Stamp(now), now.date, SecondOfDay(now);
    StampFields(now);
    FieldReads(s, 0, d.year / 100, 0, 99);
    FieldReads(s, 2, d.year % 100, 0, 99);
    assert 1000 * DigitValue(s[0]) + 100 * DigitValue(s[1]) + 10 * DigitValue(s[2]) + DigitValue(s[3]) == d.year;
    FieldReads(s, 5, d.month, 1, 12);
    FieldReads(s, 8, d.day, 1, 31);
    FieldReads(s, 11, n / 3600, 0, 23);
    FieldReads(s, 14, n / 60 % 60, 0, 59);
    FieldReads(s, 17, n % 60, 0, 59);
    assert 3600 * (n / 3600) + 60 * (n / 60 % 60) + n % 60 == n by {
      assert n / 60 / 60 == n / 3600;
    }
  }

  /** `parse_snapshot_id` undoes `new_snapshot_id`, up to the whole second and the slug of the job name. */
  lemma ParseUndoesNew(now: DateTime, job: Option<string>)
    requires Valid(now)
    ensures ParseSnapshotId(NewSnapshotId(now, job)) ==
      Generated(WholeSecond(now), if job.None? then None else Some(JobSlug(job.value)))
  {
    var sid := NewSnapshotId(now, job);
    StampRoundTrip(now);
    assert sid[..STAMP_LENGTH] == Stamp(now);
    assert sid[STAMP_LENGTH..] == Suffix(job);
    if job.Some? {
      assert Suffix(job)[1..] == JobSlug(job.value);
    }
  }

  // ---- The order of ids is the order of starts ----

  lemma LessByParts(x: string, y: string, u: string, v: string)
    requires |x| == |y|
    ensures Order.Less(x + u, y + v) <==> Order.Less(x, y) || (x == y && Order.Less(u, v))
  {
    Order.LessTotal(x, y);
    Order.LessIrreflexive(x);
    if x == y {
      Order.LessCommonPrefix(x, u, v);
    } else if Order.Less(x, y) {
      Order.LessDecidedEarly(x, y, u, v);
    } else {
      Order.LessDecidedEarly(y, x, v, u);
      if Order.Less(x + u, y + v) {
        Order.LessTransitive(x + u, y + v, x + u);
        Order.LessIrreflexive(x + u);
      }
    }
  }

  lemma TwoDigitsOrder(a: int, b: int)
    requires 0 <= a <= 99 && 0 <= b <= 99
    ensures Order.Less(TwoDigits(a), TwoDigits(b)) <==> a < b
    ensures TwoDigits(a) == TwoDigits(b) <==> a == b
  {
    var s, t := TwoDigits(a), TwoDigits(b);
    assert s[0] < t[0] <==> a / 10 < b / 10;
    assert s[0] == t[0] <==> a / 10 == b / 10;
    assert s[1] < t[1] <==> a % 10 < b % 10;
    assert s[1..] == [s[1]] && t[1..] == [t[1]];
    assert s[1..][1..] == "" && t[1..][1..] == "";
    assert Order.Less(s[1..], t[1..]) <==> s[1] < t[1];
  }

  /** A two-digit field, a separator, and the rest compare like the pair of field and rest. */
  lemma FieldThenRest(a: int, b: int, sep: string, u: string, v: string)
    requires 0 <= a <= 99 && 0 <= b <= 99
    ensures Order.Less(TwoDigits(a) + (sep + u), TwoDigits(b) + (sep + v)) <==> a < b || (a == b && Order.Less(u, v))
  {
    TwoDigitsOrder(a, b);
    LessByParts(TwoDigits(a), TwoDigits(b), sep + u, sep + v);
    Order.LessCommonPrefix(sep, u, v);
  }

  lemma DateTextOrder(a: Date, b: Date)
    requires ValidDate(a) && ValidDate(b)
    ensures Order.Less(DateText(a), DateText(b)) <==> DateBefore(a, b)
  {
    var a3, b3 := TwoDigits(a.day), TwoDigits(b.day);
    var a2, b2 := TwoDigits(a.month) + ("-" + a3), TwoDigits(b.month) + ("-" + b3);
    var a1, b1 := TwoDigits(a.year % 100) + ("-" + a2), TwoDigits(b.year % 100) + ("-" + b2);
    TwoDigitsOrder(a.day, b.day);
    FieldThenRest(a.month, b.month, "-", a3, b3);
    FieldThenRest(a.year % 100, b.year % 100, "-", a2, b2);
    FieldThenRest(a.year / 100, b.year / 100, "", a1, b1);
    assert DateText(a) == TwoDigits(a.year / 100) + ("" + a1);
    assert DateText(b) == TwoDigits(b.year / 100) + ("" + b1);
  }

  lemma TimeTextOrder(a: int, b: int)
    requires 0 <= a < 86_400 && 0 <= b < 86_400
    ensures Order.Less(TimeText(a), TimeText(b)) <==> a < b
  {
    var a3, b3 := TwoDigits(a % 60), TwoDigits(b % 60);
    var a2, b2 := TwoDigits(a / 60 % 60) + ("-" + a3), TwoDigits(b / 60 % 60) + ("-" + b3);
    TwoDigitsOrder(a % 60, b % 60);
    FieldThenRest(a / 60 % 60, b / 60 % 60, "-", a3, b3);
    FieldThenRest(a / 3600, b / 3600, "-", a2, b2);
    assert TimeText(a) == TwoDigits(a / 3600) + ("-" + a2);
    assert TimeText(b) == TwoDigits(b / 3600) + ("-" + b2);
    assert a / 60 / 60 == a / 3600 && b / 60 / 60 == b / 3600;
  }

  lemma InstantByParts(a: int, m: int, b: int, n: int)
    requires 0 <= m < 86_400 && 0 <= n < 86_400
    ensures a * DAY + m * SECOND < b * DAY + n * SECOND <==> a < b || (a == b && m < n)
    ensures a * DAY + m * SECOND == b * DAY + n * SECOND <==> a == b && m == n
  {
  }

  lemma StampOrder(s: DateTime, t: DateTime)
    requires Valid(s) && Valid(t)
    ensures Order.Less(Stamp(s), Stamp(t)) <==> Instant(WholeSecond(s)) < Instant(WholeSecond(t))
    ensures Stamp(s) == Stamp(t) <==> WholeSecond(s) == WholeSecond(t)
  {
    var m, n := SecondOfDay(s), SecondOfDay(t);
    var x, y := DateText(s.date), DateText(t.date);
    DateTextOrder(s.date, t.date);
    TimeTextOrder(m, n);
    Order.LessCommonPrefix("_", TimeText(m), TimeText(n));
    LessByParts(x, y, "_" + TimeText(m), "_" + TimeText(n));
    assert Stamp(s) == x + ("_" + TimeText(m)) && Stamp(t) == y + ("_" + TimeText(n));
    OrdinalOrder(s.date, t.date);
    InstantByParts(Ordinal(s.date), m, Ordinal(t.date), n);
    if x == y {
      SameDateText(s.date, t.date);
    }
    if Stamp(s) == Stamp(t) {
      StampRoundTrip(s);
      StampRoundTrip(t);
    }
  }

  lemma SameDateText(a: Date, b: Date)
    requires ValidDate(a) && ValidDate(b) && DateText(a) == DateText(b)
    ensures a == b
  {
    DateFields(a);
    DateFields(b);
    TwoDigitsOrder(a.year / 100, b.year / 100);
    TwoDigitsOrder(a.year % 100, b.year % 100);
    TwoDigitsOrder(a.month, b.month);
    TwoDigitsOrder(a.day, b.day);
  }

  /**
   Ids sort by the second their run started in, plain and job-scoped ones mixed; within one
   second the plain id comes first and the others sort by slug.
   */
  lemma IdOrderIsTimeOrder(s: DateTime, j: Option<string>, t: DateTime, k: Option<string>)
    requires Valid(s) && Valid(t)
    ensures Order.Less(NewSnapshotId(s, j), NewSnapshotId(t, k)) <==>
      || Instant(WholeSecond(s)) < Instant(WholeSecond(t))
      || (WholeSecond(s) == WholeSecond(t) && Order.Less(Suffix(j), Suffix(k)))
  {
    StampOrder(s, t);
    LessByParts(Stamp(s), Stamp(t), Suffix(j), Suffix(k));
  }

  /** Different runs get different ids, unless they start in one second under one slug. */
  lemma IdsDiffer(s: DateTime, j: Option<string>, t: DateTime, k: Option<string>)
    requires Valid(s) && Valid(t)
    ensures NewSnapshotId(s, j) == NewSnapshotId(t, k) <==> WholeSecond(s) == WholeSecond(t) && Suffix(j) == Suffix(k)
  {
    StampOrder(s, t);
    var a, b := NewSnapshotId(s, j), NewSnapshotId(t, k);
    if a == b {
      assert a[..STAMP_LENGTH] == Stamp(s) && b[..STAMP_LENGTH] == Stamp(t);
      assert a[STAMP_LENGTH..] == Suffix(j) && b[STAMP_LENGTH..] == Suffix(k);
    }
  }

  /** An id the engine writes has no dot. */
  lemma IdHasNoDot(now: DateTime, job: Option<string>)
    requires Valid(now)
    ensures '.' !in NewSnapshotId(now, job)
  {
    StampFields(now);
    var s := Stamp(now);
    forall i | 0 <= i < |s| ensures s[i] != '.' {
      assert s[0] == s[0..2][0] && s[1] == s[0..2][1] && s[2] == s[2..4][0] && s[3] == s[2..4][1];
      assert s[5] == s[5..7][0] && s[6] == s[5..7][1] && s[8] == s[8..10][0] && s[9] == s[8..10][1];
      assert s[11] == s[11..13][0] && s[12] == s[11..13][1] && s[14] == s[14..16][0];
      assert s[15] == s[14..16][1] && s[17] == s[17..19][0] && s[18] == s[17..19][1];
    }
  }
}
