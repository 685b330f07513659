/** Which texts are read as the time stamp of an id, and which characters make up a job's part of it. */
module StampRules {
  import opened Wrappers
  import opened Calendar
  import opened Texts
  import opened SnapshotIds

  // ---- The job's part ----

  const SLUG_CHARS := CAPITALS + LETTERS + DIGITS + "_-"

  lemma SlugCharsAre(c: char)
    ensures IsSlugChar(c) <==> c in SLUG_CHARS
  {
    AlphabetIs(c);
  }

  /** A job's name with a dash for each other character; a dash for no name. */
  lemma JobSlugIs(name: string)
    ensures name == "" ==> JobSlug(name) == "-"
    ensures name != "" ==>
      |JobSlug(name)| == |name|
      && forall i :: 0 <= i < |name| ==> JobSlug(name)[i] == if name[i] in SLUG_CHARS then name[i] else '-'
  {
    forall i | 0 <= i < |name| ensures IsSlugChar(name[i]) <==> name[i] in SLUG_CHARS {
      SlugCharsAre(name[i]);
    }
  }

  // ---- The time stamp ----

  /** The fields of a stamp, as they are written. */
  datatype Fields = Fields(year: string, month: string, day: string, hour: string, minute: string, second: string)

  function Front(f: Fields): string {
    f.year + "-" + f.month + "-" + f.day + "_"
  }

  function Written(f: Fields): string {
    Front(f) + (f.hour + "-" + f.minute + "-" + f.second)
  }

  /** One digit or two. */
  predicate IsNumber(text: string) {
    1 <= |text| <= 2 && forall i :: 0 <= i < |text| ==> IsDigit(text[i])
  }

  /** A day may also be a blank and a digit other than zero. */
  predicate IsDay(text: string) {
    IsNumber(text) || (|text| == 2 && text[0] == ' ' && '1' <= text[1] <= '9')
  }

  function ValueOf(text: string): int {
    if |text| == 1 then DigitValue(text[0])
    else if |text| == 2 then (if text[0] == ' ' then 0 else 10 * DigitValue(text[0])) + DigitValue(text[1])
    else 0
  }

  predicate IsYear(text: string) {
    |text| == 4 && forall i :: 0 <= i < 4 ==> IsDigit(text[i])
  }

  function YearOf(text: string): int
    requires |text| == 4
  {
    1000 * DigitValue(text[0]) + 100 * DigitValue(text[1]) + 10 * DigitValue(text[2]) + DigitValue(text[3])
  }

  /** They tell a date of the calendar and a time of the day. */
  ghost predicate Tells(f: Fields, t: DateTime) {
    && IsYear(f.year) && IsNumber(f.month) && IsDay(f.day)
    && IsNumber(f.hour) && IsNumber(f.minute) && IsNumber(f.second)
    && ValueOf(f.hour) < 24 && ValueOf(f.minute) < 60 && ValueOf(f.second) < 60
    && ValidDate(t.date) && t.date == Date(YearOf(f.year), ValueOf(f.month), ValueOf(f.day))
    && t.micros == (3600 * ValueOf(f.hour) + 60 * ValueOf(f.minute) + ValueOf(f.second)) * SECOND
  }

  ghost predicate Reads(s: string, from: nat, text: string) {
    from + |text| <= |s| && forall x :: 0 <= x < |text| ==> s[from + x] == text[x]
  }

  lemma ReadsBoth(s: string, from: nat, a: string, b: string)
    requires Reads(s, from, a + b)
    ensures Reads(s, from, a) && Reads(s, from + |a|, b)
  {
    forall x | 0 <= x < |a| ensures s[from + x] == a[x] {
      assert (a + b)[x] == a[x];
    }
    forall x | 0 <= x < |b| ensures s[from + |a| + x] == b[x] {
      assert (a + b)[|a| + x] == b[x];
    }
  }

  lemma NumberIsRead(s: string, i: nat, text: string, lo: int, hi: int)
    requires Reads(s, i, text) && IsNumber(text) && (i + |text| < |s| ==> !IsDigit(s[i + |text|]))
    requires lo <= ValueOf(text) <= hi
    ensures Field(s, i, lo, hi) == Some(Hit(ValueOf(text), i + |text|))
  {
    assert s[i] == text[0] && (|text| == 2 ==> s[i + 1] == text[1]);
  }

  lemma DayIsRead(s: string, i: nat, text: string)
    requires Reads(s, i, text) && IsDay(text) && (i + |text| < |s| ==> !IsDigit(s[i + |text|]))
    requires 1 <= ValueOf(text) <= 31
    ensures DayField(s, i) == Some(Hit(ValueOf(text), i + |text|))
  {
    assert s[i] == text[0] && (|text| == 2 ==> s[i + 1] == text[1]);
    if IsNumber(text) {
      NumberIsRead(s, i, text, 1, 31);
    }
  }

  lemma YearIsRead(s: string, text: string)
    requires Reads(s, 0, text) && IsYear(text)
    ensures forall i :: 0 <= i < 4 ==> IsDigit(s[i])
    ensures 1000 * DigitValue(s[0]) + 100 * DigitValue(s[1]) + 10 * DigitValue(s[2]) + DigitValue(s[3]) == YearOf(text)
  {
    assert s[0 + 0] == text[0] && s[0 + 1] == text[1] && s[0 + 2] == text[2] && s[0 + 3] == text[3];
  }

  /** Where the fields of a stamp stand. */
  ghost predicate Laid(s: string, f: Fields, month: nat, day: nat, hour: nat, minute: nat, second: nat) {
    && Reads(s, 0, f.year) && |f.year| == 4 && month == 5 && At(s, 4, '-')
    && Reads(s, month, f.month) && day == month + |f.month| + 1 && At(s, day - 1, '-')
    && Reads(s, day, f.day) && hour == day + |f.day| + 1 && At(s, hour - 1, '_')
    && Reads(s, hour, f.hour) && minute == hour + |f.hour| + 1 && At(s, minute - 1, '-')
    && Reads(s, minute, f.minute) && second == minute + |f.minute| + 1 && At(s, second - 1, '-')
    && Reads(s, second, f.second) && second + |f.second| == |s|
  }

  lemma FrontLaid(s: string, f: Fields)
    requires Reads(s, 0, Front(f))
    ensures Reads(s, 0, f.year) && At(s, |f.year|, '-') && Reads(s, |f.year| + 1, f.month)
    ensures At(s, |f.year| + 1 + |f.month|, '-') && Reads(s, |f.year| + 1 + |f.month| + 1, f.day)
    ensures At(s, |f.year| + 1 + |f.month| + 1 + |f.day|, '_')
    ensures |Front(f)| == |f.year| + 1 + |f.month| + 1 + |f.day| + 1
  {
    ReadsBoth(s, 0, f.year + "-" + f.month + "-" + f.day, "_");
    ReadsBoth(s, 0, f.year + "-" + f.month + "-", f.day);
    ReadsBoth(s, 0, f.year + "-" + f.month, "-");
    ReadsBoth(s, 0, f.year + "-", f.month);
    ReadsBoth(s, 0, f.year, "-");
    assert "-"[0] == '-' && "_"[0] == '_';
  }

  lemma BackLaid(s: string, i: nat, f: Fields)
    requires Reads(s, i, f.hour + "-" + f.minute + "-" + f.second)
    ensures Reads(s, i, f.hour) && At(s, i + |f.hour|, '-') && Reads(s, i + |f.hour| + 1, f.minute)
    ensures At(s, i + |f.hour| + 1 + |f.minute|, '-') && Reads(s, i + |f.hour| + 1 + |f.minute| + 1, f.second)
  {
    ReadsBoth(s, i, f.hour + "-" + f.minute + "-", f.second);
    ReadsBoth(s, i, f.hour + "-" + f.minute, "-");
    ReadsBoth(s, i, f.hour + "-", f.minute);
    ReadsBoth(s, i, f.hour, "-");
    assert "-"[0] == '-';
  }

  lemma WrittenLaid(f: Fields)
    requires |f.year| == 4
    ensures var day := 5 + |f.month| + 1; var hour := day + |f.day| + 1; var minute := hour + |f.hour| + 1;
      Laid(Written(f), f, 5, day, hour, minute, minute + |f.minute| + 1)
  {
    var s, back := Written(f), f.hour + "-" + f.minute + "-" + f.second;
    WholeReads(s, Front(f), back);
    FrontLaid(s, f);
    BackLaid(s, |Front(f)|, f);
  }

  lemma WholeReads(s: string, a: string, b: string)
    requires s == a + b
    ensures Reads(s, 0, a) && Reads(s, |a|, b)
  {
  }

  /** Where reading found the fields. */
  ghost predicate FoundAt(s: string, month: Hit, day: Hit, hour: Hit, minute: Hit, second: Hit) {
    && |s| >= 4 && (forall i :: 0 <= i < 4 ==> IsDigit(s[i])) && At(s, 4, '-')
    && Field(s, 5, 1, 12) == Some(month) && At(s, month.next, '-')
    && DayField(s, month.next + 1) == Some(day) && At(s, day.next, '_')
    && Field(s, day.next + 1, 0, 23) == Some(hour) && At(s, hour.next, '-')
    && Field(s, hour.next + 1, 0, 59) == Some(minute) && At(s, minute.next, '-')
    && Field(s, minute.next + 1, 0, 59) == Some(second)
  }

  /** What reading comes to once its fields are found. */
  lemma FoundIsRead(s: string, month: Hit, day: Hit, hour: Hit, minute: Hit, second: Hit)
    requires FoundAt(s, month, day, hour, minute, second)
    ensures var date := Date(YearAt(s), month.value, day.value);
      ParseStamp(s) == if second.next == |s| && ValidDate(date)
                       then Some(DateTime(date, MicrosOf(hour.value, minute.value, second.value))) else None
  {
  }

  function YearAt(s: string): int
    requires |s| >= 4
  {
    1000 * DigitValue(s[0]) + 100 * DigitValue(s[1]) + 10 * DigitValue(s[2]) + DigitValue(s[3])
  }

  function MicrosOf(hour: int, minute: int, second: int): int {
    (3600 * hour + 60 * minute + second) * SECOND
  }

  lemma FrontIsRead(s: string, f: Fields, day: nat, hour: nat)
    requires Reads(s, 0, f.year) && IsYear(f.year) && At(s, 4, '-')
    requires Reads(s, 5, f.month) && IsNumber(f.month) && day == 5 + |f.month| + 1 && At(s, day - 1, '-')
    requires Reads(s, day, f.day) && IsDay(f.day) && hour == day + |f.day| + 1 && At(s, hour - 1, '_')
    requires 1 <= ValueOf(f.month) <= 12 && 1 <= ValueOf(f.day) <= 31
    ensures |s| >= 4 && (forall i :: 0 <= i < 4 ==> IsDigit(s[i])) && YearAt(s) == YearOf(f.year)
    ensures Field(s, 5, 1, 12) == Some(Hit(ValueOf(f.month), day - 1))
    ensures DayField(s, day) == Some(Hit(ValueOf(f.day), hour - 1))
  {
    YearIsRead(s, f.year);
    NumberIsRead(s, 5, f.month, 1, 12);
    DayIsRead(s, day, f.day);
  }

  lemma BackIsRead(s: string, f: Fields, hour: nat, minute: nat, second: nat)
    requires IsNumber(f.hour) && IsNumber(f.minute) && IsNumber(f.second)
    requires Reads(s, hour, f.hour) && minute == hour + |f.hour| + 1 && At(s, minute - 1, '-')
    requires Reads(s, minute, f.minute) && second == minute + |f.minute| + 1 && At(s, second - 1, '-')
    requires Reads(s, second, f.second) && second + |f.second| == |s|
    requires ValueOf(f.hour) < 24 && ValueOf(f.minute) < 60 && ValueOf(f.second) < 60
    ensures Field(s, hour, 0, 23) == Some(Hit(ValueOf(f.hour), minute - 1))
    ensures Field(s, minute, 0, 59) == Some(Hit(ValueOf(f.minute), second - 1))
    ensures Field(s, second, 0, 59) == Some(Hit(ValueOf(f.second), |s|))
  {
    ValuesAreNatural(f);
    NumberIsRead(s, hour, f.hour, 0, 23);
    NumberIsRead(s, minute, f.minute, 0, 59);
    NumberIsRead(s, second, f.second, 0, 59);
  }

  /** The date is one of the calendar, so its fields are in range. */
  lemma DateIsInRange(d: Date)
    requires ValidDate(d)
    ensures 1 <= d.month <= 12 && 1 <= d.day <= 31
  {
  }

  lemma LaidIsRead(s: string, f: Fields, t: DateTime, day: nat, hour: nat, minute: nat, second: nat)
    requires Laid(s, f, 5, day, hour, minute, second) && Tells(f, t)
    ensures ParseStamp(s) == Some(t)
  {
    DateIsInRange(t.date);
    FrontIsRead(s, f, day, hour);
    BackIsRead(s, f, hour, minute, second);
    FoundIsRead(s, Hit(ValueOf(f.month), day - 1), Hit(ValueOf(f.day), hour - 1), Hit(ValueOf(f.hour), minute - 1),
                Hit(ValueOf(f.minute), second - 1), Hit(ValueOf(f.second), |s|));
  }

  lemma ValuesAreNatural(f: Fields)
    requires IsNumber(f.hour) && IsNumber(f.minute) && IsNumber(f.second)
    ensures ValueOf(f.hour) >= 0 && ValueOf(f.minute) >= 0 && ValueOf(f.second) >= 0
  {
    NumberIsNatural(f.hour);
    NumberIsNatural(f.minute);
    NumberIsNatural(f.second);
  }

  lemma NumberIsNatural(text: string)
    requires IsNumber(text)
    ensures ValueOf(text) >= 0
  {
  }

  // ---- And back ----

  lemma FieldHasNumber(s: string, i: nat, lo: int, hi: int)
    requires Field(s, i, lo, hi).Some?
    ensures var next := Field(s, i, lo, hi).value.next;
      i < next <= |s| && IsNumber(s[i..next]) && ValueOf(s[i..next]) == Field(s, i, lo, hi).value.value
      && lo <= ValueOf(s[i..next]) <= hi
  {
    if i + 1 < |s| {
      }
  }

  lemma DayFieldHasDay(s: string, i: nat)
    requires DayField(s, i).Some?
    ensures var next := DayField(s, i).value.next;
      i < next <= |s| && IsDay(s[i..next]) && ValueOf(s[i..next]) == DayField(s, i).value.value
  {
    if i + 1 < |s| && s[i] == ' ' && '1' <= s[i + 1] <= '9' {
      } else {
      FieldHasNumber(s, i, 1, 31);
    }
  }

  lemma FindAll(s: string) returns (month: Hit, day: Hit, hour: Hit, minute: Hit, second: Hit)
    requires ParseStamp(s).Some?
    ensures FoundAt(s, month, day, hour, minute, second)
  {
    month := Field(s, 5, 1, 12).value;
    day := DayField(s, month.next + 1).value;
    hour := Field(s, day.next + 1, 0, 23).value;
    minute := Field(s, hour.next + 1, 0, 59).value;
    second := Field(s, minute.next + 1, 0, 59).value;
  }

  /** The text between two separators is a number, or a day, with that value. */
  ghost predicate NumberIn(s: string, from: nat, to: nat, value: int) {
    from < to <= |s| && IsNumber(s[from..to]) && ValueOf(s[from..to]) == value
  }

  ghost predicate DayIn(s: string, from: nat, to: nat, value: int) {
    from < to <= |s| && IsDay(s[from..to]) && ValueOf(s[from..to]) == value
  }

  lemma FoundAre(s: string, month: Hit, day: Hit, hour: Hit, minute: Hit, second: Hit)
    requires FoundAt(s, month, day, hour, minute, second)
    ensures NumberIn(s, 5, month.next, month.value) && DayIn(s, month.next + 1, day.next, day.value)
    ensures NumberIn(s, day.next + 1, hour.next, hour.value) && hour.value < 24
    ensures NumberIn(s, hour.next + 1, minute.next, minute.value) && minute.value < 60
    ensures NumberIn(s, minute.next + 1, second.next, second.value) && second.value < 60
  {
    FieldHasNumber(s, 5, 1, 12);
    DayFieldHasDay(s, month.next + 1);
    FieldHasNumber(s, day.next + 1, 0, 23);
    FieldHasNumber(s, hour.next + 1, 0, 59);
    FieldHasNumber(s, minute.next + 1, 0, 59);
  }

  function Between(s: string, month: nat, day: nat, hour: nat, minute: nat, second: nat): Fields
    requires 5 <= month < day < hour < minute < second <= |s|
  {
    Fields(s[0..4], s[5..month], s[month + 1..day], s[day + 1..hour], s[hour + 1..minute], s[minute + 1..second])
  }

  lemma FoundTell(s: string, month: Hit, day: Hit, hour: Hit, minute: Hit, second: Hit, t: DateTime)
    requires FoundAt(s, month, day, hour, minute, second)
    requires 5 <= month.next < day.next < hour.next < minute.next < second.next <= |s|
    requires ValidDate(t.date) && t.date == Date(YearAt(s), month.value, day.value)
    requires t.micros == MicrosOf(hour.value, minute.value, second.value)
    ensures Tells(Between(s, month.next, day.next, hour.next, minute.next, second.next), t)
  {
    FoundAre(s, month, day, hour, minute, second);
    YearIn(s);
    var f := Between(s, month.next, day.next, hour.next, minute.next, second.next);
    assert ValueOf(f.month) == month.value && ValueOf(f.day) == day.value;
    TellsThem(f, t, t.date, hour.value, minute.value, second.value);
  }

  lemma FieldsOf(s: string, t: DateTime) returns (f: Fields)
    requires ParseStamp(s) == Some(t)
    ensures Tells(f, t) && s == Written(f)
  {
    var month, day, hour, minute, second := FindAll(s);
    FoundIsRead(s, month, day, hour, minute, second);
    FoundAre(s, month, day, hour, minute, second);
    f := Between(s, month.next, day.next, hour.next, minute.next, second.next);
    FoundTell(s, month, day, hour, minute, second, t);
    assert second.next == |s|;
    Rejoined(s, month.next, day.next, hour.next, minute.next);
  }

  lemma YearIn(s: string)
    requires |s| >= 4 && forall i :: 0 <= i < 4 ==> IsDigit(s[i])
    ensures IsYear(s[0..4]) && YearOf(s[0..4]) == YearAt(s)
  {
  }

  lemma TellsThem(f: Fields, t: DateTime, date: Date, hour: int, minute: int, second: int)
    requires IsYear(f.year) && IsNumber(f.month) && IsDay(f.day)
    requires IsNumber(f.hour) && IsNumber(f.minute) && IsNumber(f.second)
    requires ValidDate(date) && date == Date(YearOf(f.year), ValueOf(f.month), ValueOf(f.day))
    requires ValueOf(f.hour) == hour < 24 && ValueOf(f.minute) == minute < 60 && ValueOf(f.second) == second < 60
    requires t == DateTime(date, MicrosOf(hour, minute, second))
    ensures Tells(f, t)
  {
  }

  lemma Cut(s: string, a: nat, b: nat, c: nat)
    requires a <= b <= c <= |s|
    ensures s[a..c] == s[a..b] + s[b..c]
  {
  }

  lemma CutAt(s: string, a: nat, b: nat, c: nat, sep: string)
    requires a <= b < c <= |s| && [s[b]] == sep
    ensures s[a..c] == s[a..b] + sep + s[b + 1..c]
  {
    Cut(s, a, b, c);
    Cut(s, b, b + 1, c);
    assert s[b..b + 1] == sep;
  }

  lemma Rejoined(s: string, month: nat, day: nat, hour: nat, minute: nat)
    requires 5 <= month < day < hour < minute < |s|
    requires At(s, 4, '-') && At(s, month, '-') && At(s, day, '_') && At(s, hour, '-') && At(s, minute, '-')
    ensures s == Written(Between(s, month, day, hour, minute, |s|))
  {
    var f := Between(s, month, day, hour, minute, |s|);
    assert s[0..day + 1] == Front(f) by {
      FrontRejoined(s, 4, month, day);
    }
    assert s[day + 1..|s|] == f.hour + "-" + f.minute + "-" + f.second by {
      BackRejoined(s, day + 1, hour, minute);
    }
    assert s == s[0..day + 1] + s[day + 1..|s|];
  }

  lemma BackRejoined(s: string, from: nat, hour: nat, minute: nat)
    requires from <= hour < minute < |s| && At(s, hour, '-') && At(s, minute, '-')
    ensures s[from..|s|] == s[from..hour] + "-" + s[hour + 1..minute] + "-" + s[minute + 1..|s|]
  {
    CutAt(s, from, hour, minute, "-");
    CutAt(s, from, minute, |s|, "-");
  }

  lemma FrontRejoined(s: string, year: nat, month: nat, day: nat)
    requires year < month < day < |s| && At(s, year, '-') && At(s, month, '-') && At(s, day, '_')
    ensures s[0..day + 1] == s[0..year] + "-" + s[year + 1..month] + "-" + s[month + 1..day] + "_"
  {
    CutAt(s, 0, year, month, "-");
    CutAt(s, 0, month, day, "-");
    Cut(s, 0, day, day + 1);
    assert s[day..day + 1] == "_";
  }

  lemma WrittenIsRead(f: Fields, t: DateTime)
    requires Tells(f, t)
    ensures ParseStamp(Written(f)) == Some(t)
  {
    var day := 5 + |f.month| + 1;
    var hour := day + |f.day| + 1;
    var minute := hour + |f.hour| + 1;
    var s := Written(f);
    assert Laid(s, f, 5, day, hour, minute, minute + |f.minute| + 1) by {
      WrittenLaid(f);
    }
    LaidIsRead(s, f, t, day, hour, minute, minute + |f.minute| + 1);
  }

  /**
   A text is read as a time stamp exactly if its fields, with the separators between them, tell the date and the time:
   four digits for the year, one or two for the others, or a blank and a digit for the day.
   */
  lemma ParseStampExactly(s: string, t: DateTime)
    ensures ParseStamp(s) == Some(t) <==> exists f :: s == Written(f) && Tells(f, t)
  {
    if ParseStamp(s) == Some(t) {
      var f := FieldsOf(s, t);
    }
    if exists f :: s == Written(f) && Tells(f, t) {
      var f :| s == Written(f) && Tells(f, t);
      WrittenIsRead(f, t);
    }
  }
}
