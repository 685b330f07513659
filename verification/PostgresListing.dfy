/** The two texts a replacing restore is planned from: psql's catalog rows, and `pg_restore --list`. */
module PostgresListing {
  import opened Sequences
  import opened Texts
  import opened Wrappers
  import Order

  // ---- psql's rows, with NUL between the fields and after each record ----

  const NUL: char := '\U{0000}'

  /** `s.split(c)` */
  function Split(s: string, c: char): (r: seq<string>)
    ensures r != []
  {
    if s == "" then [""]
    else if s[0] == c then [""] + Split(s[1..], c)
    else
      var rest := Split(s[1..], c);
      [[s[0]] + rest[0]] + rest[1..]
  }

  /** `not s.strip()` */
  predicate IsBlank(s: string) {
    forall i :: 0 <= i < |s| ==> IsSpace(s[i])
  }

  function Rows(fields: seq<string>, columns: nat): seq<seq<string>>
    requires columns > 0
    decreases |fields|
  {
    if |fields| < columns then [] else [fields[..columns]] + Rows(fields[columns..], columns)
  }

  /** `_nul_rows`: a blank last field is taken for what follows the last separator, an incomplete row is dropped. */
  function NulRows(raw: string, columns: nat): seq<seq<string>>
    requires columns > 0
  {
    var fields := Split(raw, NUL);
    Rows(if IsBlank(fields[|fields| - 1]) then fields[..|fields| - 1] else fields, columns)
  }

  function PrintFields(fields: seq<string>): string {
    if fields == [] then "" else fields[0] + [NUL] + PrintFields(fields[1..])
  }

  function Flat(rows: seq<seq<string>>): seq<string> {
    if rows == [] then [] else rows[0] + Flat(rows[1..])
  }

  /** What psql writes: every field, and so every record, is followed by a NUL. */
  function PrintRows(rows: seq<seq<string>>): string {
    PrintFields(Flat(rows))
  }

  predicate NulFree(s: string) {
    NUL !in s
  }

  lemma {:induction false} SplitField(field: string, rest: string)
    requires NulFree(field)
    ensures Split(field + [NUL] + rest, NUL) == [field] + Split(rest, NUL)
  {
    var whole := field + [NUL] + rest;
    if field == "" {
      assert whole[1..] == rest;
    } else {
      assert whole[0] == field[0] && whole[1..] == field[1..] + [NUL] + rest;
      SplitField(field[1..], rest);
      assert ([field[1..]] + Split(rest, NUL))[1..] == Split(rest, NUL);
      assert [field[0]] + field[1..] == field;
    }
  }

  lemma {:induction false} SplitPrinted(fields: seq<string>)
    requires forall f :: f in fields ==> NulFree(f)
    ensures Split(PrintFields(fields), NUL) == fields + [""]
  {
    if fields != [] {
      SplitField(fields[0], PrintFields(fields[1..]));
      SplitPrinted(fields[1..]);
    }
  }

  lemma {:induction false} RowsOfFlat(rows: seq<seq<string>>, columns: nat)
    requires columns > 0 && forall row :: row in rows ==> |row| == columns
    ensures Rows(Flat(rows), columns) == rows
  {
    if rows != [] {
      assert rows[0] in rows;
      assert Flat(rows)[..columns] == rows[0] && Flat(rows)[columns..] == Flat(rows[1..]);
      RowsOfFlat(rows[1..], columns);
    }
  }

  lemma {:induction false} FlatFields(rows: seq<seq<string>>, f: string)
    ensures f in Flat(rows) <==> exists row :: row in rows && f in row
  {
    if rows != [] {
      FlatFields(rows[1..], f);
      assert forall row :: row in rows <==> row == rows[0] || row in rows[1..];
    }
  }

  /** The reader undoes the printer, whatever the fields hold but NUL: blanks, newlines, nothing at all. */
  lemma NulRowsRoundTrip(rows: seq<seq<string>>, columns: nat)
    requires columns > 0 && forall row :: row in rows ==> |row| == columns && forall f :: f in row ==> NulFree(f)
    ensures NulRows(PrintRows(rows), columns) == rows
  {
    var fields := Flat(rows);
    forall f | f in fields ensures NulFree(f) {
      FlatFields(rows, f);
    }
    SplitPrinted(fields);
    RowsOfFlat(rows, columns);
    assert (fields + [""])[..|fields|] == fields;
  }

  // ---- One entry of the dump's table of contents ----

  function DigitsEnd(s: string, i: nat): (e: nat)
    requires i <= |s|
    ensures i <= e <= |s|
    decreases |s| - i
  {
    if i < |s| && IsDigit(s[i]) then DigitsEnd(s, i + 1) else i
  }

  function BlanksEnd(s: string, i: nat): (e: nat)
    requires i <= |s|
    ensures i <= e <= |s|
    decreases |s| - i
  {
    if i < |s| && IsSpace(s[i]) then BlanksEnd(s, i + 1) else i
  }

  const CATALOGS := {"1247", "1255", "1259", "2606", "2615"}

  /** A number, one or more digits, and the blanks after it: where the next field begins. */
  function AfterNumber(s: string, i: nat): (r: Option<nat>)
    requires i <= |s|
    ensures r.Some? ==> i < r.value <= |s|
  {
    var e := DigitsEnd(s, i);
    var b := BlanksEnd(s, e);
    if i < e && e < b then Some(b) else None
  }

  /** `_TOC_ENTRY`: what follows an entry's id, catalog and object id, for the catalogs that matter. */
  function EntryText(line: string): Option<string> {
    var e := DigitsEnd(line, 0);
    if e == 0 || e == |line| || line[e] != ';' then None
    else
      var from := BlanksEnd(line, e + 1);
      if from == e + 1 || from + 4 > |line| || line[from..from + 4] !in CATALOGS then None
      else
        var oid := BlanksEnd(line, from + 4);
        if oid == from + 4 then None
        else
          var rest :- AfterNumber(line, oid);
          if '\n' in line[rest..] then None else Some(line[rest..])
  }

  predicate Shorter(a: string, b: string) {
    |a| < |b|
  }

  function WithBlank(owners: seq<string>): (r: seq<string>)
    ensures |r| == |owners| && forall i :: 0 <= i < |r| ==> r[i] == " " + owners[i]
  {
    seq(|owners|, i requires 0 <= i < |owners| => " " + owners[i])
  }

  /** The owners, each with the blank before it, the longest first. */
  function Suffixes(owners: seq<string>): seq<string> {
    Order.Descending(WithBlank(owners), Shorter)
  }

  function FirstSuffix(text: string, suffixes: seq<string>): (r: Option<string>)
    ensures r.Some? ==> r.value in suffixes && EndsWith(text, r.value)
    ensures r.None? ==> forall s :: s in suffixes ==> !EndsWith(text, s)
  {
    if suffixes == [] then None
    else if EndsWith(text, suffixes[0]) then Some(suffixes[0])
    else FirstSuffix(text, suffixes[1..])
  }

  function LastBlank(s: string): (r: Option<nat>)
    ensures r.Some? ==> r.value < |s| && s[r.value] == ' ' && forall j :: r.value < j < |s| ==> s[j] != ' '
    ensures r.None? ==> ' ' !in s
  {
    if s == "" then None
    else if s[|s| - 1] == ' ' then Some(|s| - 1)
    else LastBlank(s[..|s| - 1])
  }

  /** `rest.rsplit(" ", 1)[0]` */
  function WithoutLastWord(s: string): string {
    match LastBlank(s)
    case None => s
    case Some(i) => s[..i]
  }

  function WithoutOwner(text: string, suffixes: seq<string>): string {
    match FirstSuffix(text, suffixes)
    case Some(s) => text[..|text| - |s|]
    case None => WithoutLastWord(text)
  }

  function KeysOf(lines: seq<string>, suffixes: seq<string>): set<string> {
    set line | line in lines && EntryText(line).Some? :: WithoutOwner(EntryText(line).value, suffixes)
  }

  /** `dump_keys` */
  method DumpKeys(lines: seq<string>, owners: seq<string>) returns (keys: set<string>)
    ensures keys == KeysOf(lines, Suffixes(owners))
  {
    var suffixes := Suffixes(owners);
    keys := {};
    var i := 0;
    while i < |lines|
      invariant i <= |lines| && keys == KeysOf(lines[..i], suffixes)
    {
      TakeOneMore(lines, i);
      var text := EntryText(lines[i]);
      if text.Some? {
        keys := keys + {WithoutOwner(text.value, suffixes)};
      }
      i := i + 1;
    }
    assert lines[..i] == lines;
  }

  // ---- The reader undoes the printer ----

  predicate IsNumber(s: string) {
    s != "" && forall i :: 0 <= i < |s| ==> IsDigit(s[i])
  }

  /** A line of `pg_restore --list`, without the owner's name. */
  function PrintEntry(id: string, catalog: string, oid: string, key: string, owner: string): string {
    id + "; " + catalog + " " + oid + " " + (key + " " + owner)
  }

  lemma {:induction false} DigitsEndAt(s: string, i: nat, e: nat)
    requires i <= e <= |s| && (forall x :: i <= x < e ==> IsDigit(s[x])) && (e == |s| || !IsDigit(s[e]))
    ensures DigitsEnd(s, i) == e
    decreases e - i
  {
    if i < e {
      DigitsEndAt(s, i + 1, e);
    }
  }

  /** Where the fields of an entry stand. */
  ghost predicate HasFields(line: string, id: string, catalog: string, oid: string, text: string) {
    && |catalog| == 4 && |line| == |id| + 8 + |oid| + |text|
    && (forall x :: 0 <= x < |id| ==> line[x] == id[x]) && line[|id|] == ';' && line[|id| + 1] == ' '
    && line[|id| + 2..|id| + 6] == catalog && line[|id| + 6] == ' ' && line[|id| + 7 + |oid|] == ' '
    && (forall x :: 0 <= x < |oid| ==> line[|id| + 7 + x] == oid[x])
    && line[|id| + 8 + |oid|..] == text
  }

  lemma PrintedFields(id: string, catalog: string, oid: string, text: string)
    requires |catalog| == 4
    ensures HasFields(id + "; " + catalog + " " + oid + " " + text, id, catalog, oid, text)
  {
  }

  lemma DigitsAt(s: string, i: nat, number: string)
    requires IsNumber(number) && i + |number| < |s| && !IsDigit(s[i + |number|])
    requires forall x :: 0 <= x < |number| ==> s[i + x] == number[x]
    ensures DigitsEnd(s, i) == i + |number|
  {
    forall x | i <= x < i + |number| ensures IsDigit(s[x]) {
      assert s[i + (x - i)] == number[x - i];
    }
    DigitsEndAt(s, i, i + |number|);
  }

  lemma OneBlank(s: string, i: nat)
    requires i + 1 < |s| && s[i] == ' ' && !IsSpace(s[i + 1])
    ensures BlanksEnd(s, i) == i + 1
  {
  }

  lemma FieldsAreRead(id: string, catalog: string, oid: string, text: string, line: string)
    requires IsNumber(id) && catalog in CATALOGS && IsNumber(oid) && HasFields(line, id, catalog, oid, text)
    requires text != "" && !IsSpace(text[0]) && '\n' !in text
    ensures EntryText(line) == Some(text)
  {
    var a, b := |id|, |id| + 7;
    var c := b + |oid|;
    DigitsAt(line, 0, id);
    DigitsAt(line, b, oid);
    assert line[a + 2] == catalog[0] by { assert line[a + 2..a + 6][0] == catalog[0]; }
    assert line[c + 1] == text[0] by { assert line[c + 1..][0] == text[0]; }
    OneBlank(line, a + 1);
    OneBlank(line, a + 6);
    OneBlank(line, c);
    assert AfterNumber(line, b) == Some(c + 1);
    EntryTextAt(line, a, c + 1, text);
  }

  /** An entry printed in the listing's format is read back up to its owner. */
  lemma EntryTextOfPrinted(id: string, catalog: string, oid: string, key: string, owner: string)
    requires IsNumber(id) && catalog in CATALOGS && IsNumber(oid)
    requires key != "" && !IsSpace(key[0]) && '\n' !in key && '\n' !in owner
    ensures EntryText(PrintEntry(id, catalog, oid, key, owner)) == Some(key + " " + owner)
  {
    PrintedFields(id, catalog, oid, key + " " + owner);
    FieldsAreRead(id, catalog, oid, key + " " + owner, PrintEntry(id, catalog, oid, key, owner));
  }

  lemma EntryTextAt(line: string, a: nat, from: nat, text: string)
    requires 0 < a && a + 7 <= from <= |line| && DigitsEnd(line, 0) == a && line[a] == ';'
    requires BlanksEnd(line, a + 1) == a + 2 && line[a + 2..a + 6] in CATALOGS && BlanksEnd(line, a + 6) == a + 7
    requires AfterNumber(line, a + 7) == Some(from) && line[from..] == text && '\n' !in text
    ensures EntryText(line) == Some(text)
  {
  }

  // ---- Whose owner is left off ----

  lemma SuffixesExactly(owners: seq<string>, s: string)
    ensures s in Suffixes(owners) <==> exists i :: 0 <= i < |owners| && s == " " + owners[i]
  {
    Order.SameElements(WithBlank(owners), Suffixes(owners), s);
  }

  lemma {:induction false} FirstIsLongest(text: string, suffixes: seq<string>, s: string)
    requires Order.IsDescending(suffixes, Shorter) && s in suffixes && EndsWith(text, s)
    ensures FirstSuffix(text, suffixes).Some? && |FirstSuffix(text, suffixes).value| >= |s|
  {
    if EndsWith(text, suffixes[0]) {
      var i :| 0 <= i < |suffixes| && suffixes[i] == s;
      assert i > 0 ==> !Shorter(suffixes[0], suffixes[i]);
    } else {
      FirstIsLongest(text, suffixes[1..], s);
    }
  }

  /** No listed role is a longer suffix of the entry than its owner is. */
  ghost predicate NoLongerOwner(text: string, owner: string, owners: seq<string>) {
    forall o :: o in owners && EndsWith(text, " " + o) ==> |o| <= |owner|
  }

  /**
   An entry's key is recovered exactly if no listed role is a longer suffix of the entry than its owner,
   and the owner is listed, or no listed role is a suffix at all and the owner holds no blank.
   */
  lemma OwnerLeftOffExactly(key: string, owner: string, owners: seq<string>)
    ensures WithoutOwner(key + " " + owner, Suffixes(owners)) == key
       <==> NoLongerOwner(key + " " + owner, owner, owners)
            && (owner in owners
                || ((forall o :: o in owners ==> !EndsWith(key + " " + owner, " " + o)) && ' ' !in owner))
  {
    var text, suffixes := key + " " + owner, Suffixes(owners);
    assert text[..|key|] == key && text[|key|..] == " " + owner;
    Order.DescendingIsDescending(WithBlank(owners), Shorter);
    forall o | o in owners && EndsWith(text, " " + o)
      ensures FirstSuffix(text, suffixes).Some? && |FirstSuffix(text, suffixes).value| >= |o| + 1
    {
      SuffixesExactly(owners, " " + o);
      FirstIsLongest(text, suffixes, " " + o);
    }
    match FirstSuffix(text, suffixes)
    case Some(s) =>
      SuffixesExactly(owners, s);
      var i :| 0 <= i < |owners| && s == " " + owners[i];
      if |owners[i]| == |owner| {
        SameSuffix(text, owners[i], owner);
      }
      assert |text[..|text| - |s|]| == |key| <==> |owners[i]| == |owner|;
    case None =>
      LastWordLeftOff(key, owner);
  }

  lemma SameSuffix(text: string, a: string, b: string)
    requires EndsWith(text, " " + a) && EndsWith(text, " " + b) && |a| == |b|
    ensures a == b
  {
    assert (" " + a)[1..] == a && (" " + b)[1..] == b;
  }

  lemma LastWordLeftOff(key: string, owner: string)
    ensures WithoutLastWord(key + " " + owner) == key <==> ' ' !in owner
  {
    var text := key + " " + owner;
    assert text[|key|] == ' ' && text[|key| + 1..] == owner && text[..|key|] == key;
    var i := LastBlank(text).value;
    assert forall j :: |key| < j < |text| ==> text[j] == owner[j - |key| - 1];
    assert i >= |key|;
    assert |text[..i]| == i;
  }

  /** A listing's line gives back the entry's key, under the same condition on the roles. */
  lemma KeyRecoveredExactly(id: string, catalog: string, oid: string, key: string, owner: string, owners: seq<string>)
    requires IsNumber(id) && catalog in CATALOGS && IsNumber(oid)
    requires key != "" && !IsSpace(key[0]) && '\n' !in key && '\n' !in owner
    ensures KeysOf([PrintEntry(id, catalog, oid, key, owner)], Suffixes(owners)) == {key}
       <==> NoLongerOwner(key + " " + owner, owner, owners)
            && (owner in owners
                || ((forall o :: o in owners ==> !EndsWith(key + " " + owner, " " + o)) && ' ' !in owner))
  {
    var line, read := PrintEntry(id, catalog, oid, key, owner), WithoutOwner(key + " " + owner, Suffixes(owners));
    EntryTextOfPrinted(id, catalog, oid, key, owner);
    OwnerLeftOffExactly(key, owner, owners);
    assert KeysOf([line], Suffixes(owners)) == {read} by {
      assert line in [line];
    }
    assert {read} == {key} ==> read in {key};
  }
}
