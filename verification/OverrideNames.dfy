/** Which environment variables are discrete overrides, and which path each of them names. */
module OverrideNames {
  import opened Overrides

  const PREFIX := "BACKUP_"
  const SEPARATOR := "__"
  const CONTROL_VARS := {"BACKUP_CONFIG_JSON", "BACKUP_CONFIG_JSON_BASE64", "BACKUP_CONFIG_FILE"}

  predicate SeparatorAt(s: string, i: nat) {
    i + 1 < |s| && s[i] == '_' && s[i + 1] == '_'
  }

  predicate HasSeparator(s: string) {
    exists i :: 0 <= i < |s| && SeparatorAt(s, i)
  }

  predicate IsOverride(name: string) {
    PREFIX <= name && name !in CONTROL_VARS && HasSeparator(name)
  }

  /** `s.split("__")`, from the left. */
  function Split(s: string): (r: seq<string>)
    ensures r != []
  {
    if s == "" then [""]
    else if SEPARATOR <= s then [""] + Split(s[2..])
    else
      var rest := Split(s[1..]);
      [[s[0]] + rest[0]] + rest[1..]
  }

  function LowerChar(c: char): char {
    if 'A' <= c <= 'Z' then c - 'A' + 'a' else c
  }

  /** `str.lower` for ASCII names. */
  function Lower(s: string): string {
    if s == "" then "" else [LowerChar(s[0])] + Lower(s[1..])
  }

  predicate IsDigits(s: string) {
    s != "" && forall i :: 0 <= i < |s| ==> '0' <= s[i] <= '9'
  }

  function Value(s: string): nat
    requires forall i :: 0 <= i < |s| ==> '0' <= s[i] <= '9'
  {
    if s == "" then 0 else Value(s[..|s| - 1]) * 10 + (s[|s| - 1] - '0') as nat
  }

  function KeyOf(segment: string): Key {
    if IsDigits(segment) then Index(Value(segment)) else Name(segment)
  }

  function Keys(parts: seq<string>): Path {
    if parts == [] then []
    else (if parts[0] == "" then [] else [KeyOf(Lower(parts[0]))]) + Keys(parts[1..])
  }

  /** The path a variable names; `[]` for one that is no override. */
  function PathOf(name: string): Path {
    if IsOverride(name) then Keys(Split(name[|PREFIX|..])) else []
  }

  // ---- Every path can be written as a name ----

  /** A segment that splitting keeps in one piece: no separator inside, and no underscore at its end if more follows. */
  predicate IsSegment(s: string, last: bool) {
    s != "" && !HasSeparator(s) && (last || s[|s| - 1] != '_')
  }

  predicate IsWritable(parts: seq<string>) {
    parts != [] && forall i :: 0 <= i < |parts| ==> IsSegment(parts[i], i == |parts| - 1)
  }

  function Join(parts: seq<string>): string
    requires parts != []
  {
    if |parts| == 1 then parts[0] else parts[0] + SEPARATOR + Join(parts[1..])
  }

  function KeysOf(parts: seq<string>): Path {
    if parts == [] then [] else [KeyOf(Lower(parts[0]))] + KeysOf(parts[1..])
  }

  lemma SeparatorFurther(s: string)
    requires s != "" && !HasSeparator(s)
    ensures !HasSeparator(s[1..]) && !(SEPARATOR <= s)
  {
    assert SEPARATOR <= s ==> SeparatorAt(s, 0);
    forall i | 0 <= i < |s| - 1 ensures !SeparatorAt(s[1..], i) {
      assert !SeparatorAt(s, i + 1);
    }
  }

  lemma {:induction false} SplitOne(s: string)
    requires !HasSeparator(s)
    ensures Split(s) == [s]
  {
    if s != "" {
      SeparatorFurther(s);
      SplitOne(s[1..]);
      assert [s[0]] + s[1..] == s;
    }
  }

  /** No separator begins before the one that follows the segment. */
  lemma NoEarlierSeparator(s: string, rest: string)
    requires s != "" && !HasSeparator(s) && s[|s| - 1] != '_'
    ensures !(SEPARATOR <= s + SEPARATOR + rest)
  {
    var whole := s + SEPARATOR + rest;
    assert whole[0] == s[0] && (|s| > 1 ==> whole[1] == s[1]);
    assert !SeparatorAt(s, 0);
  }

  lemma {:induction false} SplitFirst(s: string, rest: string)
    requires !HasSeparator(s) && (s != "" ==> s[|s| - 1] != '_')
    ensures Split(s + SEPARATOR + rest) == [s] + Split(rest)
  {
    var whole := s + SEPARATOR + rest;
    if s == "" {
      assert whole == SEPARATOR + rest && whole[2..] == rest;
    } else {
      assert whole[0] == s[0] && whole[1..] == s[1..] + SEPARATOR + rest;
      SeparatorFurther(s);
      SplitFirst(s[1..], rest);
      NoEarlierSeparator(s, rest);
      assert ([s[1..]] + Split(rest))[1..] == Split(rest);
      assert [s[0]] + s[1..] == s;
    }
  }

  /** Splitting undoes joining. */
  lemma {:induction false} SplitJoin(parts: seq<string>)
    requires IsWritable(parts)
    ensures Split(Join(parts)) == parts
  {
    assert IsSegment(parts[0], |parts| == 1);
    if |parts| == 1 {
      SplitOne(parts[0]);
    } else {
      SplitFirst(parts[0], Join(parts[1..]));
      assert forall i :: 0 <= i < |parts| - 1 ==> IsSegment(parts[1..][i], i + 1 == |parts| - 1);
      SplitJoin(parts[1..]);
    }
  }

  lemma {:induction false} KeysOfSegments(parts: seq<string>)
    requires forall i :: 0 <= i < |parts| ==> parts[i] != ""
    ensures Keys(parts) == KeysOf(parts)
  {
    if parts != [] {
      KeysOfSegments(parts[1..]);
    }
  }

  /** The variables that select the base config would not be read as overrides anyway. */
  lemma OverrideBySeparator(name: string)
    ensures IsOverride(name) <==> PREFIX <= name && HasSeparator(name)
  {
    assert !HasSeparator("BACKUP_CONFIG_JSON") && !HasSeparator("BACKUP_CONFIG_JSON_BASE64")
      && !HasSeparator("BACKUP_CONFIG_FILE");
  }

  /** When the name of a path contains the separator: with two segments or more, or with a leading underscore. */
  lemma NameContainsSeparator(parts: seq<string>)
    requires IsWritable(parts)
    ensures HasSeparator(PREFIX + Join(parts)) <==> |parts| > 1 || parts[0][0] == '_'
  {
    var first := parts[0];
    assert IsSegment(first, |parts| == 1);
    if |parts| > 1 {
      AfterTwo(PREFIX, first, Join(parts[1..]));
    } else if first[0] == '_' {
      assert SeparatorAt(PREFIX + first, 6);
    } else {
      PrefixThenSegment(first);
    }
  }

  lemma AfterTwo(a: string, b: string, rest: string)
    ensures HasSeparator(a + (b + SEPARATOR + rest))
  {
    var name := a + (b + SEPARATOR + rest);
    assert name[|a| + |b|..] == SEPARATOR + rest;
    assert name[|a| + |b|] == SEPARATOR[0] && name[|a| + |b| + 1] == SEPARATOR[1];
    assert SeparatorAt(name, |a| + |b|);
  }

  lemma PrefixThenSegment(s: string)
    requires s != "" && !HasSeparator(s) && s[0] != '_'
    ensures !HasSeparator(PREFIX + s)
  {
    var name := PREFIX + s;
    forall i | 0 <= i < |name| ensures !SeparatorAt(name, i) {
      if i >= 7 {
        assert !SeparatorAt(s, i - 7);
      } else if i < 6 {
        assert name[i] == PREFIX[i] && PREFIX[i] != '_';
      } else {
        assert name[7] == s[0];
      }
    }
  }

  /**
   The prefix and a path's segments with the separator between them address that path, exactly if there are
   two segments or the only one begins with an underscore: a single other segment names no override.
   */
  lemma AddressableExactly(parts: seq<string>)
    requires IsWritable(parts)
    ensures PathOf(PREFIX + Join(parts)) == KeysOf(parts) <==> |parts| > 1 || parts[0][0] == '_'
  {
    NameContainsSeparator(parts);
    OverrideBySeparator(PREFIX + Join(parts));
    assert (PREFIX + Join(parts))[|PREFIX|..] == Join(parts);
    KeysOfWritable(parts);
  }

  lemma KeysOfWritable(parts: seq<string>)
    requires IsWritable(parts)
    ensures Keys(Split(Join(parts))) == KeysOf(parts) && KeysOf(parts) != []
  {
    SplitJoin(parts);
    assert forall i :: 0 <= i < |parts| ==> IsSegment(parts[i], i == |parts| - 1);
    KeysOfSegments(parts);
  }

  // ---- Which path a name addresses ----

  function Digit(n: nat): char
    requires n < 10
  {
    '0' + n as char
  }

  /** A number as it is printed. */
  function Decimal(n: nat): string {
    (if n < 10 then "" else Decimal(n / 10)) + [Digit(n % 10)]
  }

  /** The character, or its capital. */
  predicate IsCaseOf(c: char, l: char) {
    (c == l && !('A' <= c <= 'Z')) || ('a' <= l <= 'z' && c == l - 'a' + 'A')
  }

  ghost predicate IsDecimal(segment: string, n: nat) {
    exists zeros: string :: (forall i :: 0 <= i < |zeros| ==> zeros[i] == '0') && segment == zeros + Decimal(n)
  }

  /** A number stands for an index, leading zeros or not; anything else for a name in lower case. */
  ghost predicate Spells(segment: string, key: Key) {
    match key
    case Index(n) => IsDecimal(segment, n)
    case Name(name) =>
      && |segment| == |name| && (forall i :: 0 <= i < |name| ==> IsCaseOf(segment[i], name[i]))
      && exists i :: 0 <= i < |name| && !('0' <= name[i] <= '9')
  }

  lemma {:induction false} LowerIs(s: string, l: string)
    requires |s| == |l| && forall i :: 0 <= i < |l| ==> IsCaseOf(s[i], l[i])
    ensures Lower(s) == l
  {
    if s != "" {
      LowerIs(s[1..], l[1..]);
      assert l == [l[0]] + l[1..];
    }
  }

  lemma {:induction false} ValueOfDecimal(zeros: string, n: nat)
    requires forall i :: 0 <= i < |zeros| ==> zeros[i] == '0'
    ensures IsDigits(zeros + Decimal(n)) && Value(zeros + Decimal(n)) == n
    decreases n
  {
    if n < 10 {
      ZerosAreNothing(zeros);
      OneMoreDigit(zeros, n);
      assert Decimal(n) == [Digit(n)];
    } else {
      ValueOfDecimal(zeros, n / 10);
      OneMoreDigit(zeros + Decimal(n / 10), n % 10);
      assert zeros + Decimal(n) == zeros + Decimal(n / 10) + [Digit(n % 10)];
    }
  }

  lemma OneMoreDigit(s: string, d: nat)
    requires d < 10 && forall i :: 0 <= i < |s| ==> '0' <= s[i] <= '9'
    ensures IsDigits(s + [Digit(d)]) && Value(s + [Digit(d)]) == 10 * Value(s) + d
  {
    assert (s + [Digit(d)])[..|s|] == s;
  }

  lemma {:induction false} ZerosAreNothing(zeros: string)
    requires forall i :: 0 <= i < |zeros| ==> zeros[i] == '0'
    ensures Value(zeros) == 0
  {
    if zeros != "" {
      ZerosAreNothing(zeros[..|zeros| - 1]);
    }
  }

  lemma SpelledIsRead(segment: string, key: Key)
    requires Spells(segment, key)
    ensures KeyOf(Lower(segment)) == key
  {
    match key
    case Index(n) =>
      var zeros: string :| (forall i :: 0 <= i < |zeros| ==> zeros[i] == '0') && segment == zeros + Decimal(n);
      ValueOfDecimal(zeros, n);
      LowerIs(segment, segment);
    case Name(name) =>
      LowerIs(segment, name);
  }

  lemma {:induction false} SpelledAreRead(parts: seq<string>, path: Path)
    requires |parts| == |path| && forall i :: 0 <= i < |path| ==> Spells(parts[i], path[i])
    ensures KeysOf(parts) == path
  {
    if parts != [] {
      SpelledIsRead(parts[0], path[0]);
      SpelledAreRead(parts[1..], path[1..]);
      assert path == [path[0]] + path[1..];
    }
  }

  /**
   The prefix and the segments that spell a path, with the separator between them, address that path - numbers its
   list entries, everything else its names in whatever case - exactly if there are two segments or the only one begins
   with an underscore.
   */
  lemma SpelledPathExactly(parts: seq<string>, path: Path)
    requires IsWritable(parts) && |parts| == |path| && forall i :: 0 <= i < |path| ==> Spells(parts[i], path[i])
    ensures PathOf(PREFIX + Join(parts)) == path <==> |parts| > 1 || parts[0][0] == '_'
  {
    SpelledAreRead(parts, path);
    AddressableExactly(parts);
  }

  /** A separator before the first segment adds nothing to the path, so that each path has a name. */
  lemma LeadingSeparator(parts: seq<string>, path: Path)
    requires IsWritable(parts) && |parts| == |path| && forall i :: 0 <= i < |path| ==> Spells(parts[i], path[i])
    ensures PathOf(PREFIX + (SEPARATOR + Join(parts))) == path
  {
    PathAfterSeparator(Join(parts));
    KeysOfWritable(parts);
    SpelledAreRead(parts, path);
  }

  lemma PathAfterSeparator(rest: string)
    ensures PathOf(PREFIX + (SEPARATOR + rest)) == Keys(Split(rest))
  {
    var more := SEPARATOR + rest;
    var name := PREFIX + more;
    assert name[|PREFIX|..] == more && name[6] == '_' && name[7] == more[0];
    assert SeparatorAt(name, 6);
    OverrideBySeparator(name);
    SplitFirst("", rest);
    assert "" + SEPARATOR + rest == more;
    EmptyIsSkipped(Split(rest));
  }

  lemma EmptyIsSkipped(parts: seq<string>)
    ensures Keys([""] + parts) == Keys(parts)
  {
    assert ([""] + parts)[1..] == parts;
  }
}
