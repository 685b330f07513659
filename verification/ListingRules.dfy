/** What the two readers of a replacing restore take from their texts, told by the texts alone. */
module ListingRules {
  import opened Texts
  import opened Wrappers
  import opened PostgresListing

  // ---- A line of the dump's table of contents ----

  ghost predicate IsGap(s: string) {
    s != "" && forall i :: 0 <= i < |s| ==> IsSpace(s[i])
  }

  /** Types, routines, relations, constraints and schemas, by the catalogs they are listed in. */
  predicate IsListedCatalog(catalog: string) {
    catalog == "1247" || catalog == "1255" || catalog == "1259" || catalog == "2606" || catalog == "2615"
  }

  /** The parts of a line up to its text. */
  datatype Parts = Parts(id: string, a: string, catalog: string, b: string, oid: string, c: string)

  ghost predicate AreParts(p: Parts) {
    && IsNumber(p.id) && IsGap(p.a) && IsListedCatalog(p.catalog) && IsGap(p.b) && IsNumber(p.oid) && IsGap(p.c)
  }

  function Front(p: Parts): string {
    p.id + ";" + p.a + p.catalog + p.b + p.oid + p.c
  }

  ghost predicate IsText(text: string) {
    '\n' !in text && (text == "" || !IsSpace(text[0]))
  }

  ghost predicate Reads(line: string, from: nat, s: string) {
    from + |s| <= |line| && forall x :: 0 <= x < |s| ==> line[from + x] == s[x]
  }

  lemma ReadsBoth(line: string, from: nat, a: string, b: string)
    requires Reads(line, from, a + b)
    ensures Reads(line, from, a) && Reads(line, from + |a|, b)
  {
    forall x | 0 <= x < |a| ensures line[from + x] == a[x] {
      assert (a + b)[x] == a[x];
    }
    forall x | 0 <= x < |b| ensures line[from + |a| + x] == b[x] {
      assert (a + b)[|a| + x] == b[x];
    }
  }

  lemma {:induction false} BlanksEndAt(s: string, i: nat, e: nat)
    requires i <= e <= |s| && (forall x :: i <= x < e ==> IsSpace(s[x])) && (e == |s| || !IsSpace(s[e]))
    ensures BlanksEnd(s, i) == e
    decreases e - i
  {
    if i < e {
      BlanksEndAt(s, i + 1, e);
    }
  }

  lemma GapIsRead(line: string, i: nat, gap: string)
    requires IsGap(gap) && Reads(line, i, gap) && (i + |gap| < |line| ==> !IsSpace(line[i + |gap|]))
    ensures BlanksEnd(line, i) == i + |gap|
  {
    forall x | i <= x < i + |gap| ensures IsSpace(line[x]) {
      assert line[x] == gap[x - i];
    }
    BlanksEndAt(line, i, i + |gap|);
  }

  lemma NumberIsRead(line: string, i: nat, number: string)
    requires IsNumber(number) && Reads(line, i, number) && i + |number| < |line| && !IsDigit(line[i + |number|])
    ensures DigitsEnd(line, i) == i + |number|
  {
    DigitsAt(line, i, number);
  }

  /** Where the parts stand. */
  ghost predicate Laid(line: string, p: Parts) {
    var semi := |p.id|;
    var catalog := semi + 1 + |p.a|;
    var oid := catalog + |p.catalog| + |p.b|;
    && Reads(line, 0, p.id) && semi < |line| && line[semi] == ';' && Reads(line, semi + 1, p.a)
    && Reads(line, catalog, p.catalog) && Reads(line, catalog + |p.catalog|, p.b)
    && Reads(line, oid, p.oid) && Reads(line, oid + |p.oid|, p.c)
  }

  lemma FrontLaid(line: string, p: Parts)
    requires Reads(line, 0, Front(p))
    ensures Laid(line, p)
  {
    ReadsBoth(line, 0, p.id + ";" + p.a + p.catalog + p.b + p.oid, p.c);
    ReadsBoth(line, 0, p.id + ";" + p.a + p.catalog + p.b, p.oid);
    ReadsBoth(line, 0, p.id + ";" + p.a + p.catalog, p.b);
    ReadsBoth(line, 0, p.id + ";" + p.a, p.catalog);
    ReadsBoth(line, 0, p.id + ";", p.a);
    ReadsBoth(line, 0, p.id, ";");
    assert ";"[0] == ';';
  }

  /** A digit is no blank, and neither is a semicolon either of them. */
  lemma Separate(c: char)
    ensures !(IsDigit(c) && IsSpace(c)) && (c == ';' ==> !IsDigit(c) && !IsSpace(c))
  {
  }

  lemma CatalogIsRead(line: string, i: nat, catalog: string)
    requires IsListedCatalog(catalog) && Reads(line, i, catalog)
    ensures i + 4 <= |line| && line[i..i + 4] == catalog && IsDigit(line[i]) && IsDigit(line[i + 3])
  {
    assert line[i] == catalog[0] && line[i + 1] == catalog[1] && line[i + 2] == catalog[2] && line[i + 3] == catalog[3];
  }

  /** The first half of the line. */
  lemma HeadIsRead(line: string, p: Parts, from: nat)
    requires AreParts(p) && Laid(line, p) && from == |p.id| + 1 + |p.a|
    ensures DigitsEnd(line, 0) == |p.id| && BlanksEnd(line, |p.id| + 1) == from
    ensures from + 4 <= |line| && line[from..from + 4] == p.catalog && BlanksEnd(line, from + 4) == from + 4 + |p.b|
  {
    Separate(';');
    NumberIsRead(line, 0, p.id);
    CatalogIsRead(line, from, p.catalog);
    Separate(line[from]);
    GapIsRead(line, |p.id| + 1, p.a);
    assert line[from + 4 + |p.b|] == p.oid[0];
    Separate(p.oid[0]);
    GapIsRead(line, from + 4, p.b);
  }

  lemma NumberThenGap(line: string, i: nat, number: string, gap: string)
    requires IsNumber(number) && IsGap(gap) && Reads(line, i, number) && Reads(line, i + |number|, gap)
    requires i + |number| + |gap| < |line| ==> !IsSpace(line[i + |number| + |gap|])
    ensures AfterNumber(line, i) == Some(i + |number| + |gap|)
  {
    assert line[i + |number|] == gap[0];
    Separate(gap[0]);
    NumberIsRead(line, i, number);
    GapIsRead(line, i + |number|, gap);
  }

  lemma LaidIsRead(line: string, p: Parts, from: nat, end: nat, text: string)
    requires AreParts(p) && Laid(line, p) && from == |p.id| + 1 + |p.a|
    requires end == from + 4 + |p.b| + |p.oid| + |p.c| && end <= |line| && line[end..] == text && IsText(text)
    ensures EntryText(line) == Some(text)
  {
    HeadIsRead(line, p, from);
    assert end < |line| ==> line[end] == text[0];
    NumberThenGap(line, from + 4 + |p.b|, p.oid, p.c);
    EntryIs(line, |p.id|, from, from + 4 + |p.b|, end, text);
  }

  lemma EntryIs(line: string, semi: nat, from: nat, oid: nat, end: nat, text: string)
    requires 0 < semi < |line| && line[semi] == ';' && DigitsEnd(line, 0) == semi
    requires semi + 1 < from && BlanksEnd(line, semi + 1) == from && from + 4 < oid
    requires oid <= |line| && BlanksEnd(line, from + 4) == oid && IsListedCatalog(line[from..from + 4])
    requires AfterNumber(line, oid) == Some(end) && line[end..] == text && '\n' !in text
    ensures EntryText(line) == Some(text)
  {
  }

  lemma PrintedIsRead(p: Parts, text: string)
    requires AreParts(p) && IsText(text)
    ensures EntryText(Front(p) + text) == Some(text)
  {
    var line := Front(p) + text;
    FrontReads(line, Front(p), text);
    FrontLaid(line, p);
    LaidIsRead(line, p, |p.id| + 1 + |p.a|, |Front(p)|, text);
  }

  lemma FrontReads(line: string, front: string, text: string)
    requires line == front + text
    ensures Reads(line, 0, front) && line[|front|..] == text
  {
  }

  // ---- And back ----

  lemma {:induction false} DigitsBefore(s: string, i: nat)
    requires i <= |s|
    ensures forall x :: i <= x < DigitsEnd(s, i) ==> IsDigit(s[x])
    decreases |s| - i
  {
    if i < |s| && IsDigit(s[i]) {
      DigitsBefore(s, i + 1);
    }
  }

  lemma {:induction false} BlanksBefore(s: string, i: nat)
    requires i <= |s|
    ensures forall x :: i <= x < BlanksEnd(s, i) ==> IsSpace(s[x])
    ensures BlanksEnd(s, i) < |s| ==> !IsSpace(s[BlanksEnd(s, i)])
    decreases |s| - i
  {
    if i < |s| && IsSpace(s[i]) {
      BlanksBefore(s, i + 1);
    }
  }

  lemma Cut(s: string, a: nat, b: nat, c: nat)
    requires a <= b <= c <= |s|
    ensures s[a..c] == s[a..b] + s[b..c]
  {
  }

  /** The parts between these places. */
  lemma PartsBetween(line: string, semi: nat, from: nat, oid: nat, gap: nat, end: nat) returns (p: Parts)
    requires 0 < semi < |line| && line[semi] == ';' && semi + 1 < from && from + 4 < oid < gap < end <= |line|
    ensures p == Parts(line[0..semi], line[semi + 1..from], line[from..from + 4], line[from + 4..oid], line[oid..gap],
                       line[gap..end])
    ensures Front(p) == line[0..end]
  {
    p := Parts(line[0..semi], line[semi + 1..from], line[from..from + 4], line[from + 4..oid], line[oid..gap],
               line[gap..end]);
    assert line[semi..semi + 1] == ";";
    Cut(line, 0, semi, semi + 1);
    Cut(line, 0, semi + 1, from);
    Cut(line, 0, from, from + 4);
    Cut(line, 0, from + 4, oid);
    Cut(line, 0, oid, gap);
    Cut(line, 0, gap, end);
  }

  /** Where the parts end, if the line is read. */
  ghost predicate AreEnds(line: string, semi: nat, from: nat, oid: nat, gap: nat, end: nat) {
    && 0 < semi < |line| && line[semi] == ';' && semi + 1 < from && from + 4 < oid < gap < end <= |line|
    && semi == DigitsEnd(line, 0) && from == BlanksEnd(line, semi + 1) && oid == BlanksEnd(line, from + 4)
    && gap == DigitsEnd(line, oid) && end == BlanksEnd(line, gap) && IsListedCatalog(line[from..from + 4])
  }

  lemma ReadHasEnds(line: string, text: string) returns (semi: nat, from: nat, oid: nat, gap: nat, end: nat)
    requires EntryText(line) == Some(text)
    ensures AreEnds(line, semi, from, oid, gap, end) && line[end..] == text && '\n' !in text
  {
    semi := DigitsEnd(line, 0);
    from := BlanksEnd(line, semi + 1);
    oid := BlanksEnd(line, from + 4);
    gap := DigitsEnd(line, oid);
    end := BlanksEnd(line, gap);
  }

  lemma NumberBetween(s: string, i: nat)
    requires i <= |s| && i < DigitsEnd(s, i)
    ensures IsNumber(s[i..DigitsEnd(s, i)])
  {
    DigitsBefore(s, i);
  }

  lemma GapBetween(s: string, i: nat)
    requires i <= |s| && i < BlanksEnd(s, i)
    ensures IsGap(s[i..BlanksEnd(s, i)])
  {
    BlanksBefore(s, i);
  }

  lemma EndsMakeParts(line: string, semi: nat, from: nat, oid: nat, gap: nat, end: nat, p: Parts)
    requires AreEnds(line, semi, from, oid, gap, end)
    requires p == Parts(line[0..semi], line[semi + 1..from], line[from..from + 4], line[from + 4..oid], line[oid..gap],
                        line[gap..end])
    ensures AreParts(p)
  {
    NumberBetween(line, 0);
    GapBetween(line, semi + 1);
    GapBetween(line, from + 4);
    NumberBetween(line, oid);
    GapBetween(line, gap);
  }

  lemma ReadHasParts(line: string, text: string) returns (p: Parts)
    requires EntryText(line) == Some(text)
    ensures AreParts(p) && IsText(text) && line == Front(p) + text
  {
    var semi, from, oid, gap, end := ReadHasEnds(line, text);
    p := PartsBetween(line, semi, from, oid, gap, end);
    EndsMakeParts(line, semi, from, oid, gap, end, p);
    BlanksBefore(line, gap);
    WholeLine(line, end, text);
  }

  lemma WholeLine(line: string, end: nat, text: string)
    requires end <= |line| && line[end..] == text
    ensures line == line[0..end] + text && (text != "" ==> text[0] == line[end])
  {
  }

  /**
   What is read of a line, exactly: what follows a number and a semicolon, one of the five catalogs, and another number,
   each set off by blanks.
   */
  lemma EntryTextExactly(line: string, text: string)
    ensures EntryText(line) == Some(text) <==>
      IsText(text) && exists p :: AreParts(p) && line == Front(p) + text
  {
    if EntryText(line) == Some(text) {
      var p := ReadHasParts(line, text);
    }
    if IsText(text) && exists p :: AreParts(p) && line == Front(p) + text {
      var p :| AreParts(p) && line == Front(p) + text;
      PrintedIsRead(p, text);
    }
  }

  // ---- A whole listing ----

  /** A line of the listing: the parts before it, what it is about, and its owner. */
  datatype Entry = Entry(parts: Parts, key: string, owner: string)

  function Line(e: Entry): string {
    Front(e.parts) + (e.key + " " + e.owner)
  }

  /** The roles leave no doubt about where the owner begins. */
  ghost predicate OwnerIsClear(e: Entry, owners: seq<string>) {
    && NoLongerOwner(e.key + " " + e.owner, e.owner, owners)
    && (e.owner in owners
        || ((forall o :: o in owners ==> !EndsWith(e.key + " " + e.owner, " " + o)) && ' ' !in e.owner))
  }

  ghost predicate IsEntry(e: Entry) {
    AreParts(e.parts) && e.key != "" && IsText(e.key) && '\n' !in e.owner
  }

  lemma LineIsRead(e: Entry)
    requires IsEntry(e)
    ensures EntryText(Line(e)) == Some(e.key + " " + e.owner)
  {
    var text := e.key + " " + e.owner;
    assert text[0] == e.key[0];
    PrintedIsRead(e.parts, text);
  }

  /** The lines that are no entries of the five catalogs. */
  ghost predicate IsSkipped(line: string) {
    forall p, text :: AreParts(p) && line == Front(p) + text ==> !IsText(text)
  }

  lemma SkippedIsNotRead(line: string)
    requires IsSkipped(line)
    ensures EntryText(line).None?
  {
    if EntryText(line).Some? {
      EntryTextExactly(line, EntryText(line).value);
    }
  }

  /** An entry of any other catalog, such as the data of a table, which is listed with catalog 0. */
  lemma OtherCatalogIsSkipped(id: string, gap: string, catalog: string, more: string)
    requires IsNumber(id) && IsGap(gap) && IsNumber(catalog) && !IsListedCatalog(catalog)
    requires more == "" || IsSpace(more[0])
    ensures EntryText(id + ";" + gap + catalog + more).None?
  {
    var front := id + ";" + gap + catalog;
    var line := front + more;
    FrontReads(line, front, more);
    assert more != "" ==> line[|front|] == more[0];
    OtherFront(line, front, id, gap, catalog);
    OtherCatalogAt(line, |id|, |id| + 1 + |gap|, id, gap, catalog);
  }

  lemma OtherFront(line: string, front: string, id: string, gap: string, catalog: string)
    requires Reads(line, 0, front) && front == id + ";" + gap + catalog
    ensures Reads(line, 0, id) && |id| < |line| && line[|id|] == ';' && Reads(line, |id| + 1, gap)
    ensures Reads(line, |id| + 1 + |gap|, catalog) && |front| == |id| + 1 + |gap| + |catalog|
  {
    ReadsBoth(line, 0, id + ";" + gap, catalog);
    ReadsBoth(line, 0, id + ";", gap);
    ReadsBoth(line, 0, id, ";");
    assert ";"[0] == ';';
  }

  lemma OtherCatalogAt(line: string, semi: nat, from: nat, id: string, gap: string, catalog: string)
    requires IsNumber(id) && IsGap(gap) && IsNumber(catalog) && !IsListedCatalog(catalog)
    requires Reads(line, 0, id) && semi == |id| < |line| && line[semi] == ';' && Reads(line, semi + 1, gap)
    requires from == semi + 1 + |gap| && Reads(line, from, catalog)
    requires from + |catalog| < |line| ==> IsSpace(line[from + |catalog|])
    ensures EntryText(line).None?
  {
    Separate(';');
    NumberIsRead(line, 0, id);
    assert line[from] == catalog[0];
    Separate(line[from]);
    GapIsRead(line, semi + 1, gap);
    if from + 4 <= |line| {
      OtherFour(line, from, catalog);
    }
  }

  lemma OtherFour(line: string, from: nat, catalog: string)
    requires IsNumber(catalog) && !IsListedCatalog(catalog) && Reads(line, from, catalog) && from + 4 <= |line|
    requires from + |catalog| < |line| ==> IsSpace(line[from + |catalog|])
    ensures line[from..from + 4] !in CATALOGS || BlanksEnd(line, from + 4) == from + 4
  {
    var four := line[from..from + 4];
    if |catalog| < 4 {
      assert four[|catalog|] == line[from + |catalog|];
      Separate(four[|catalog|]);
    } else if |catalog| == 4 {
      assert four == catalog;
    } else {
      assert line[from + 4] == catalog[4];
      Separate(line[from + 4]);
    }
  }

  /** Of a listing, the keys of the entries are found, and nothing else. */
  lemma KeysExactly(lines: seq<string>, entries: set<Entry>, owners: seq<string>)
    requires forall e :: e in entries ==> IsEntry(e) && OwnerIsClear(e, owners)
    requires forall line :: line in lines ==> IsSkipped(line) || exists e :: e in entries && line == Line(e)
    requires forall e :: e in entries ==> Line(e) in lines
    ensures KeysOf(lines, Suffixes(owners)) == set e | e in entries :: e.key
  {
    forall e | e in entries ensures EntryText(Line(e)).Some? &&
      WithoutOwner(EntryText(Line(e)).value, Suffixes(owners)) == e.key
    {
      LineIsRead(e);
      OwnerLeftOffExactly(e.key, e.owner, owners);
    }
    forall line | line in lines && EntryText(line).Some? ensures exists e :: e in entries && line == Line(e) {
      if IsSkipped(line) {
        SkippedIsNotRead(line);
      }
    }
  }

  // ---- psql's rows ----

  lemma {:induction false} SplitWithTail(fields: seq<string>, tail: string)
    requires (forall f :: f in fields ==> NulFree(f)) && NulFree(tail)
    ensures Split(PrintFields(fields) + tail, NUL) == fields + [tail]
  {
    if fields == [] {
      SplitWhole(tail);
      assert PrintFields(fields) + tail == tail;
    } else {
      var rest := PrintFields(fields[1..]) + tail;
      assert PrintFields(fields) + tail == fields[0] + [NUL] + rest;
      SplitField(fields[0], rest);
      SplitWithTail(fields[1..], tail);
    }
  }

  lemma {:induction false} SplitWhole(s: string)
    requires NulFree(s)
    ensures Split(s, NUL) == [s]
  {
    if s != "" {
      SplitWhole(s[1..]);
      assert [s[0]] + s[1..] == s;
    }
  }

  lemma {:induction false} RowsWithRest(rows: seq<seq<string>>, rest: seq<string>, columns: nat)
    requires columns > 0 && (forall row :: row in rows ==> |row| == columns) && |rest| <= columns
    ensures Rows(Flat(rows) + rest, columns) == rows + if |rest| == columns then [rest] else []
  {
    var all := Flat(rows) + rest;
    if rows == [] {
      assert all == rest && (|rest| == columns ==> rest[..columns] == rest && rest[columns..] == []);
    } else {
      assert rows[0] in rows;
      assert all[..columns] == rows[0] && all[columns..] == Flat(rows[1..]) + rest;
      RowsWithRest(rows[1..], rest, columns);
      assert rows == [rows[0]] + rows[1..];
    }
  }

  /**
   What follows the last separator counts as a field unless it is blank; a row that is short of fields is dropped.
   */
  lemma RowsWithTail(rows: seq<seq<string>>, rest: seq<string>, tail: string, columns: nat)
    requires columns > 0 && |rest| < columns && NulFree(tail) && (forall f :: f in rest ==> NulFree(f))
    requires forall row :: row in rows ==> |row| == columns && forall f :: f in row ==> NulFree(f)
    ensures NulRows(PrintFields(Flat(rows) + rest) + tail, columns)
      == rows + (if |rest| == columns - 1 && exists i :: 0 <= i < |tail| && !IsSpace(tail[i])
                 then [rest + [tail]] else [])
  {
    var fields := Flat(rows) + rest;
    forall f | f in fields ensures NulFree(f) {
      FlatFields(rows, f);
    }
    SplitWithTail(fields, tail);
    assert (fields + [tail])[..|fields|] == fields && fields + [tail] == Flat(rows) + (rest + [tail]);
    RowsWithRest(rows, rest, columns);
    RowsWithRest(rows, rest + [tail], columns);
  }
}
