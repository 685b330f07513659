/**
 The log redaction scanner: find `key=value` and `key: value` pairs, and mask the values of keys that
 hold a credential. The two regular expressions are written out as the matchers they denote.
 */
module Redaction {
  import opened Wrappers
  import opened Sequences
  import opened Texts

  const MASK := "***"

  // ---- Characters ----

  /** `[a-z0-9_.-]`, ignoring case: Python then also matches four letters outside ASCII. */
  predicate IsNameChar(c: char) {
    || 'a' <= c <= 'z' || 'A' <= c <= 'Z' || '0' <= c <= '9' || c == '_' || c == '.' || c == '-'
    || c == '\U{0130}' || c == '\U{0131}' || c == '\U{017F}' || c == '\U{212A}'
  }

  predicate IsQuote(c: char) {
    c == '"' || c == '\''
  }

  predicate IsSign(c: char) {
    c == '=' || c == ':'
  }

  // ---- Which keys hold a credential ----

  function Lower(s: string): string {
    if s == "" then ""
    else (if 'A' <= s[0] <= 'Z' then [s[0] - 'A' + 'a']
          else if s[0] == '\U{212A}' then "k"
          else if s[0] == '\U{0130}' then ['i', '\U{0307}']
          else [s[0]]) + Lower(s[1..])
  }

  predicate Contains(s: string, word: string) {
    word <= s || (s != "" && Contains(s[1..], word))
  }

  /** `(?:api|access|private)[_.-]?key` */
  predicate ContainsKeyPhrase(s: string, word: string) {
    || Contains(s, word + "key") || Contains(s, word + "_key") || Contains(s, word + ".key")
      || Contains(s, word + "-key")
  }

  predicate IsSensitiveKey(name: string) {
    var l := Lower(name);
    || Contains(l, "password") || Contains(l, "passwd") || Contains(l, "passphrase") || Contains(l, "secret")
    || Contains(l, "token") || Contains(l, "credential") || Contains(l, "signature")
    || ContainsKeyPhrase(l, "api") || ContainsKeyPhrase(l, "access") || ContainsKeyPhrase(l, "private")
    || EndsWith(l, "_key") || EndsWith(l, "-key") || EndsWith(l, ".key") || l == "sig"
  }

  // ---- The matchers ----

  /** The end of the run of name characters at `i`. */
  function NameEnd(t: string, i: nat): (e: nat)
    requires i <= |t|
    ensures i <= e <= |t|
    decreases |t| - i
  {
    if i < |t| && IsNameChar(t[i]) then NameEnd(t, i + 1) else i
  }

  function SpaceEnd(t: string, i: nat): (e: nat)
    requires i <= |t|
    ensures i <= e <= |t|
    ensures e < |t| ==> !IsSpace(t[e])
    decreases |t| - i
  {
    if i < |t| && IsSpace(t[i]) then SpaceEnd(t, i + 1) else i
  }

  function WordEnd(t: string, i: nat): (e: nat)
    requires i <= |t|
    ensures i <= e <= |t|
    ensures e < |t| ==> IsSpace(t[e])
    decreases |t| - i
  {
    if i < |t| && !IsSpace(t[i]) then WordEnd(t, i + 1) else i
  }

  /** A key: where its name begins and ends, and where its `=` or `:` is. */
  datatype Key = Key(nameFrom: nat, nameTo: nat, sign: nat)

  predicate NameBefore(t: string, i: nat) {
    0 < i <= |t| && IsNameChar(t[i - 1])
  }

  /** The key that begins at `i`, up to its sign: optional quote, name, the same quote, blanks, sign. */
  function KeyAt(t: string, i: nat): (r: Option<Key>)
    requires i <= |t|
    ensures r.Some? ==> i <= r.value.nameFrom < r.value.nameTo <= r.value.sign < |t| && IsSign(t[r.value.sign])
  {
    if i == |t| || NameBefore(t, i) then None
    else
      var quoted := if IsQuote(t[i]) then 1 else 0;
      var e := NameEnd(t, i + quoted);
      if e == i + quoted || (quoted == 1 && (e == |t| || t[e] != t[i])) then None
      else
        var s := SpaceEnd(t, e + quoted);
        if s < |t| && IsSign(t[s]) then Some(Key(i + quoted, e, s)) else None
  }

  /** Where the value after a key begins. */
  function KeyEnd(t: string, key: Key): nat
    requires key.sign < |t|
  {
    SpaceEnd(t, key.sign + 1)
  }

  /** `_KEY.search(text, pos)`: the first key at or after `pos`. */
  function Search(t: string, pos: nat): (r: Option<Key>)
    requires pos <= |t|
    ensures r.Some? ==> pos <= r.value.nameFrom < r.value.nameTo <= r.value.sign < |t| && IsSign(t[r.value.sign])
    decreases |t| - pos
  {
    var here := KeyAt(t, pos);
    if here.Some? then here
    else if pos == |t| then None
    else Search(t, pos + 1)
  }

  ghost predicate NoKeyBetween(t: string, from: nat, to: nat) {
    forall i :: from <= i < to && i <= |t| ==> KeyAt(t, i).None?
  }

  /** The search finds the leftmost key, and misses none. */
  lemma {:induction false} SearchIsLeftmost(t: string, pos: nat) returns (i: nat)
    requires pos <= |t|
    ensures pos <= i && NoKeyBetween(t, pos, i)
    ensures if Search(t, pos).Some? then i <= |t| && KeyAt(t, i) == Search(t, pos) else i == |t| + 1
    decreases |t| - pos
  {
    if KeyAt(t, pos).Some? {
      i := pos;
    } else if pos == |t| {
      i := pos + 1;
    } else {
      i := SearchIsLeftmost(t, pos + 1);
    }
  }

  /**
   The end of a quoted string whose content continues at `i`; a backslash takes the next character along, but no
   newline.
   */
  function QuotedEnd(t: string, i: nat, quote: char): (r: Option<nat>)
    requires i <= |t|
    ensures r.Some? ==> i < r.value <= |t| && t[r.value - 1] == quote
    decreases |t| - i
  {
    if i == |t| then None
    else if t[i] == quote then Some(i + 1)
    else if t[i] == '\\' then
      if i + 1 < |t| && t[i + 1] != '\n' then QuotedEnd(t, i + 2, quote) else None
    else QuotedEnd(t, i + 1, quote)
  }

  /** `_VALUE.match(text, i)`: a quoted string, else everything up to white space. */
  function ValueEnd(t: string, i: nat): (r: Option<nat>)
    requires i <= |t|
    ensures r.Some? ==> i < r.value <= |t|
  {
    if i == |t| then None
    else
      var quoted := if IsQuote(t[i]) then QuotedEnd(t, i + 1, t[i]) else None;
      if quoted.Some? then quoted
      else if IsSpace(t[i]) then None
      else Some(WordEnd(t, i))
  }

  /** What stands in for a value: the mask, in the quotes of the value if it has a pair of them. */
  function MaskOf(raw: string): string {
    if |raw| > 1 && IsQuote(raw[0]) && raw[|raw| - 1] == raw[0] then [raw[0]] + MASK + [raw[0]] else MASK
  }

  /** Which key names hold a credential; `IsSensitiveKey` in the engine. */
  type KeyRule = string -> bool

  /** One step of the scan from `pos`: the key found, and the end of its value if that is to be masked. */
  datatype Found = Nothing | Plain(end: nat) | Secret(end: nat, valueEnd: nat)

  function Next(rule: KeyRule, t: string, pos: nat): (r: Found)
    requires pos <= |t|
    ensures r.Plain? ==> pos < r.end <= |t|
    ensures r.Secret? ==> pos < r.end < r.valueEnd <= |t|
  {
    match Search(t, pos)
    case None => Nothing
    case Some(key) =>
      var end := KeyEnd(t, key);
      var value := if rule(t[key.nameFrom..key.nameTo]) then ValueEnd(t, end) else None;
      if value.None? then Plain(end) else Secret(end, value.value)
  }

  /** The text from `pos` on with the values masked. */
  function Masked(rule: KeyRule, t: string, pos: nat): string
    requires pos <= |t|
    decreases |t| - pos
  {
    match Next(rule, t, pos)
    case Nothing => t[pos..]
    case Plain(end) => t[pos..end] + Masked(rule, t, end)
    case Secret(end, valueEnd) => t[pos..end] + MaskOf(t[end..valueEnd]) + Masked(rule, t, valueEnd)
  }

  /** What is left of the text from `pos` on without the values that are masked. */
  function Outside(rule: KeyRule, t: string, pos: nat): string
    requires pos <= |t|
    decreases |t| - pos
  {
    match Next(rule, t, pos)
    case Nothing => t[pos..]
    case Plain(end) => t[pos..end] + Outside(rule, t, end)
    case Secret(end, valueEnd) => t[pos..end] + Outside(rule, t, valueEnd)
  }

  /** Every credential the scan comes across from `pos` on is already a mask. */
  predicate NoSecrets(rule: KeyRule, t: string, pos: nat)
    requires pos <= |t|
    decreases |t| - pos
  {
    match Next(rule, t, pos)
    case Nothing => true
    case Plain(end) => NoSecrets(rule, t, end)
    case Secret(end, valueEnd) => t[end..valueEnd] == MaskOf(t[end..valueEnd]) && NoSecrets(rule, t, valueEnd)
  }

  /** `_mask_pairs`: the scan position grows at every turn. */
  method MaskPairs(text: string) returns (out: string)
    ensures out == Masked(IsSensitiveKey, text, 0)
  {
    out := "";
    var pos: nat := 0;
    while true
      invariant pos <= |text| && out + Masked(IsSensitiveKey, text, pos) == Masked(IsSensitiveKey, text, 0)
      decreases |text| - pos
    {
      var pair := Search(text, pos);
      if pair.None? {
        break;
      }
      var end := KeyEnd(text, pair.value);
      var value := if IsSensitiveKey(text[pair.value.nameFrom..pair.value.nameTo]) then ValueEnd(text, end) else None;
      if value.None? {
        assert Next(IsSensitiveKey, text, pos) == Plain(end);
        Grouped(out, text[pos..end], Masked(IsSensitiveKey, text, end));
        out := out + text[pos..end];
        pos := end;
      } else {
        assert Next(IsSensitiveKey, text, pos) == Secret(end, value.value);
        Grouped(out, text[pos..end] + MaskOf(text[end..value.value]), Masked(IsSensitiveKey, text, value.value));
        out := out + (text[pos..end] + MaskOf(text[end..value.value]));
        pos := value.value;
      }
    }
    out := out + text[pos..];
  }

  // ---- What a match looks at ----

  /** `t` from `i` on and `u` from `k` on begin with the same `n` characters. */
  ghost predicate Agree(t: string, i: nat, u: string, k: nat, n: nat) {
    i + n <= |t| && k + n <= |u| && t[i..i + n] == u[k..k + n]
  }

  lemma AgreeAt(t: string, i: nat, u: string, k: nat, n: nat, d: nat)
    requires Agree(t, i, u, k, n) && d < n
    ensures t[i + d] == u[k + d]
  {
    assert t[i..i + n][d] == u[k..k + n][d];
  }

  lemma AgreeFurther(t: string, i: nat, u: string, k: nat, n: nat, d: nat)
    requires Agree(t, i, u, k, n) && d <= n
    ensures Agree(t, i + d, u, k + d, n - d)
  {
    assert t[i + d..i + n] == t[i..i + n][d..] && u[k + d..k + n] == u[k..k + n][d..];
  }

  lemma {:induction false} SameNameEnd(t: string, i: nat, u: string, k: nat, n: nat)
    requires Agree(t, i, u, k, n) && NameEnd(t, i) < i + n
    ensures NameEnd(u, k) - k == NameEnd(t, i) - i
    decreases n
  {
    AgreeAt(t, i, u, k, n, 0);
    if IsNameChar(t[i]) {
      AgreeFurther(t, i, u, k, n, 1);
      SameNameEnd(t, i + 1, u, k + 1, n - 1);
    }
  }

  lemma {:induction false} SameSpaceEnd(t: string, i: nat, u: string, k: nat, n: nat)
    requires Agree(t, i, u, k, n) && SpaceEnd(t, i) < i + n
    ensures SpaceEnd(u, k) - k == SpaceEnd(t, i) - i
    decreases n
  {
    AgreeAt(t, i, u, k, n, 0);
    if IsSpace(t[i]) {
      AgreeFurther(t, i, u, k, n, 1);
      SameSpaceEnd(t, i + 1, u, k + 1, n - 1);
    }
  }

  /** The name of a key at `i`, in quotes (`quoted` is 1) or not (0). */
  predicate IsName(t: string, i: nat, quoted: nat, nameTo: nat) {
    && i < |t| && !NameBefore(t, i) && quoted == (if IsQuote(t[i]) then 1 else 0)
    && nameTo == NameEnd(t, i + quoted) && i + quoted < nameTo
    && (quoted == 1 ==> nameTo < |t| && t[nameTo] == t[i])
  }

  predicate IsSigned(t: string, after: nat, sign: nat) {
    after <= |t| && sign == SpaceEnd(t, after) && sign < |t| && IsSign(t[sign])
  }

  predicate IsKey(t: string, i: nat, quoted: nat, key: Key) {
    IsName(t, i, quoted, key.nameTo) && key.nameFrom == i + quoted && IsSigned(t, key.nameTo + quoted, key.sign)
  }

  lemma KeyAtIsKey(t: string, i: nat, quoted: nat, key: Key)
    requires i <= |t| && quoted <= 1
    ensures IsKey(t, i, quoted, key) ==> KeyAt(t, i) == Some(key)
    ensures KeyAt(t, i) == Some(key) && quoted == key.nameFrom - i ==> IsKey(t, i, quoted, key)
  {
  }

  function Shifted(key: Key, i: nat, k: nat): Key
    requires i <= key.nameFrom <= key.nameTo <= key.sign
  {
    Key(key.nameFrom - i + k, key.nameTo - i + k, key.sign - i + k)
  }

  /** A match of a key depends on the characters up to its sign, and on whether a name character comes before. */
  lemma SameKeyAt(t: string, i: nat, u: string, k: nat, n: nat)
    requires Agree(t, i, u, k, n) && KeyAt(t, i).Some? && KeyAt(t, i).value.sign < i + n
    requires NameBefore(t, i) == NameBefore(u, k)
    ensures KeyAt(u, k) == Some(Shifted(KeyAt(t, i).value, i, k))
  {
    var key := KeyAt(t, i).value;
    KeyAtIsKey(t, i, key.nameFrom - i, key);
    SameParts(t, i, u, k, n, key.nameFrom - i, key);
    KeyAtIsKey(u, k, key.nameFrom - i, Shifted(key, i, k));
  }

  lemma SameParts(t: string, i: nat, u: string, k: nat, n: nat, quoted: nat, key: Key)
    requires Agree(t, i, u, k, n) && IsKey(t, i, quoted, key) && key.sign < i + n
    requires NameBefore(t, i) == NameBefore(u, k)
    ensures IsKey(u, k, quoted, Shifted(key, i, k))
  {
    SameNamePart(t, i, u, k, n, quoted, key.nameTo);
    SameSignAfter(t, i, u, k, n, key.nameTo + quoted - i, key.sign);
  }

  lemma SameSignAfter(t: string, i: nat, u: string, k: nat, n: nat, after: nat, sign: nat)
    requires Agree(t, i, u, k, n) && IsSigned(t, i + after, sign) && sign < i + n
    ensures IsSigned(u, k + after, sign - i + k)
  {
    AgreeFurther(t, i, u, k, n, after);
    SameSignPart(t, i + after, u, k + after, n - after, sign, sign - i + k);
  }

  lemma SameNamePart(t: string, i: nat, u: string, k: nat, n: nat, quoted: nat, nameTo: nat)
    requires Agree(t, i, u, k, n) && IsName(t, i, quoted, nameTo) && nameTo < i + n
    requires NameBefore(t, i) == NameBefore(u, k)
    ensures IsName(u, k, quoted, nameTo - i + k)
  {
    AgreeAt(t, i, u, k, n, 0);
    AgreeFurther(t, i, u, k, n, quoted);
    SameNameEnd(t, i + quoted, u, k + quoted, n - quoted);
    AgreeAt(t, i, u, k, n, nameTo - i);
  }

  lemma SameSignPart(t: string, i: nat, u: string, k: nat, n: nat, sign: nat, sign': nat)
    requires Agree(t, i, u, k, n) && IsSigned(t, i, sign) && sign < i + n && sign' - k == sign - i
    ensures IsSigned(u, k, sign')
  {
    SameSpaceEnd(t, i, u, k, n);
    AgreeAt(t, i, u, k, n, sign - i);
  }

  lemma {:induction false} NoSignInName(t: string, i: nat, x: nat)
    requires i <= |t| && i <= x < NameEnd(t, i)
    ensures !IsSign(t[x])
    decreases x - i
  {
    if x > i {
      NoSignInName(t, i + 1, x);
    }
  }

  lemma {:induction false} NoSignInSpace(t: string, i: nat, x: nat)
    requires i <= |t| && i <= x < SpaceEnd(t, i)
    ensures !IsSign(t[x])
    decreases x - i
  {
    if x > i {
      NoSignInSpace(t, i + 1, x);
    }
  }

  /** No `=` or `:` within a key but its own. */
  lemma NoEarlierSign(t: string, i: nat, x: nat)
    requires i <= |t| && KeyAt(t, i).Some? && i <= x < KeyAt(t, i).value.sign
    ensures !IsSign(t[x])
  {
    var key := KeyAt(t, i).value;
    var quoted := key.nameFrom - i;
    if x < key.nameFrom {
    } else if x < key.nameTo {
      NoSignInName(t, key.nameFrom, x);
    } else if x >= key.nameTo + quoted {
      NoSignInSpace(t, key.nameTo + quoted, x);
    }
  }

  // ---- Searching the masked text again ----

  /** What comes before the two positions makes no difference to a key that begins there. */
  predicate SameBoundary(t: string, i: nat, u: string, k: nat) {
    NameBefore(t, i) == NameBefore(u, k) || i >= |t| || !(IsNameChar(t[i]) || IsQuote(t[i]))
  }

  /** If `t` has no key at `i` but a sign within the common part, `u` has none at `k` either. */
  lemma StillNoKey(t: string, i: nat, u: string, k: nat, n: nat, sign: nat)
    requires Agree(t, i, u, k, n) && i <= sign < i + n && IsSign(t[sign])
    requires SameBoundary(t, i, u, k) && KeyAt(t, i).None?
    ensures KeyAt(u, k).None?
  {
    AgreeAt(t, i, u, k, n, 0);
    AgreeAt(t, i, u, k, n, sign - i);
    if KeyAt(u, k).Some? {
      var other := KeyAt(u, k).value;
      if k + (sign - i) < other.sign {
        NoEarlierSign(u, k, k + (sign - i));
      }
      SameKeyAt(u, k, t, i, n);
    }
  }

  lemma SearchHere(t: string, i: nat)
    requires i <= |t|
    ensures KeyAt(t, i).Some? ==> Search(t, i) == KeyAt(t, i)
    ensures KeyAt(t, i).None? && i < |t| ==> Search(t, i) == Search(t, i + 1)
    ensures KeyAt(t, i).None? && i == |t| ==> Search(t, i).None?
  {
  }

  /** A search finds the same key again in a text that agrees up to the key's sign. */
  lemma {:induction false} SearchAgain(t: string, i: nat, u: string, k: nat, n: nat, key: Key)
    requires Agree(t, i, u, k, n) && Search(t, i) == Some(key) && key.sign < i + n
    requires SameBoundary(t, i, u, k)
    ensures Search(u, k) == Some(Shifted(key, i, k))
    decreases n
  {
    SearchHere(t, i);
    SearchHere(u, k);
    if KeyAt(t, i).Some? {
      SameKeyAt(t, i, u, k, n);
    } else {
      NextBoundary(t, i, u, k, n);
      StillNoKey(t, i, u, k, n, key.sign);
      AgreeFurther(t, i, u, k, n, 1);
      SearchAgain(t, i + 1, u, k + 1, n - 1, key);
      assert Shifted(key, i + 1, k + 1) == Shifted(key, i, k);
    }
  }

  /** After a common character the boundaries are the same. */
  lemma NextBoundary(t: string, i: nat, u: string, k: nat, n: nat)
    requires Agree(t, i, u, k, n) && n > 0
    ensures SameBoundary(t, i + 1, u, k + 1)
  {
    AgreeAt(t, i, u, k, n, 0);
  }

  lemma {:induction false} StillNothing(t: string, i: nat, u: string, k: nat)
    requires i <= |t| && k <= |u| && t[i..] == u[k..] && SameBoundary(t, i, u, k) && Search(t, i).None?
    ensures Search(u, k).None?
    decreases |t| - i
  {
    var n := |t| - i;
    assert |u| - k == n;
    assert Agree(t, i, u, k, n);
    if n > 0 {
      AgreeAt(t, i, u, k, n, 0);
      if KeyAt(u, k).Some? {
        SameKeyAt(u, k, t, i, n);
      }
      assert t[i + 1..] == t[i..][1..] && u[k + 1..] == u[k..][1..];
      StillNothing(t, i + 1, u, k + 1);
    }
  }

  lemma {:induction false} AllSpaces(t: string, i: nat, x: nat)
    requires i <= |t| && i <= x < SpaceEnd(t, i)
    ensures IsSpace(t[x])
    decreases x - i
  {
    if x > i {
      AllSpaces(t, i + 1, x);
    }
  }

  lemma {:induction false} SpacesEndAt(t: string, i: nat, e: nat)
    requires i <= e <= |t| && (forall x :: i <= x < e ==> IsSpace(t[x])) && (e == |t| || !IsSpace(t[e]))
    ensures SpaceEnd(t, i) == e
    decreases e - i
  {
    if i < e {
      SpacesEndAt(t, i + 1, e);
    }
  }

  /** The blanks after a key's sign end at the same place, though what follows them may differ. */
  lemma SameKeyEnd(t: string, i: nat, u: string, k: nat, n: nat, key: Key)
    requires Agree(t, i, u, k, n) && i <= key.nameFrom <= key.nameTo <= key.sign && key.sign < |t|
    requires KeyEnd(t, key) == i + n
    requires k + n < |u| ==> !IsSpace(u[k + n])
    ensures Shifted(key, i, k).sign < |u| && KeyEnd(u, Shifted(key, i, k)) == k + n
  {
    var from := key.sign + 1 - i;
    forall x | k + from <= x < k + n ensures IsSpace(u[x]) {
      AllSpaces(t, key.sign + 1, x - k + i);
      AgreeAt(t, i, u, k, n, x - k);
    }
    SpacesEndAt(u, k + from, k + n);
  }

  /**
   A step of the scan finds the same key again, at the same distance, and its value begins at the same distance
   too.
   */
  lemma SameStep(t: string, i: nat, u: string, k: nat, n: nat, key: Key)
    requires i <= |t| && Search(t, i) == Some(key) && KeyEnd(t, key) == i + n
    requires Agree(t, i, u, k, n) && SameBoundary(t, i, u, k) && (k + n < |u| ==> !IsSpace(u[k + n]))
    ensures Search(u, k) == Some(Shifted(key, i, k)) && KeyEnd(u, Shifted(key, i, k)) == k + n
  {
    SearchAgain(t, i, u, k, n, key);
    SameKeyEnd(t, i, u, k, n, key);
  }

  lemma SameName(t: string, i: nat, u: string, k: nat, n: nat, key: Key)
    requires Agree(t, i, u, k, n) && i <= key.nameFrom <= key.nameTo <= key.sign < i + n
    ensures Shifted(key, i, k).sign < |u|
    ensures u[Shifted(key, i, k).nameFrom..Shifted(key, i, k).nameTo] == t[key.nameFrom..key.nameTo]
  {
    SamePart(t, i, u, k, n, key.nameFrom - i, key.nameTo - i);
  }

  lemma SamePart(t: string, i: nat, u: string, k: nat, n: nat, from: nat, to: nat)
    requires Agree(t, i, u, k, n) && from <= to <= n
    ensures t[i + from..i + to] == u[k + from..k + to]
  {
    PartOf(t, i, n, from, to);
    PartOf(u, k, n, from, to);
  }

  lemma PartOf(t: string, i: nat, n: nat, from: nat, to: nat)
    requires i + n <= |t| && from <= to <= n
    ensures t[i + from..i + to] == t[i..i + n][from..to]
  {
    var whole := t[i..i + n];
    forall x | 0 <= x < to - from ensures t[i + from..i + to][x] == whole[from..to][x] {
      assert whole[from + x] == t[i + (from + x)];
    }
  }

  // ---- Values ----

  lemma {:induction false} WordHasNoSpace(t: string, i: nat, e: nat)
    requires i <= e <= |t| && (forall x :: i <= x < e ==> !IsSpace(t[x])) && (e == |t| || IsSpace(t[e]))
    ensures WordEnd(t, i) == e
    decreases e - i
  {
    if i < e {
      WordHasNoSpace(t, i + 1, e);
    }
  }

  /** A value either stands in quotes, or goes up to a blank or the end. */
  predicate InQuotes(raw: string) {
    |raw| > 1 && IsQuote(raw[0]) && raw[|raw| - 1] == raw[0]
  }

  lemma ValueShape(t: string, i: nat)
    requires i <= |t| && ValueEnd(t, i).Some?
    ensures var e := ValueEnd(t, i).value; InQuotes(t[i..e]) || e == |t| || IsSpace(t[e])
  {
    var e := ValueEnd(t, i).value;
    if IsQuote(t[i]) && QuotedEnd(t, i + 1, t[i]).Some? {
      assert t[i..e][0] == t[i] && t[i..e][e - i - 1] == t[e - 1];
    }
  }

  /** A mask is read back as a value, and masked as itself. */
  lemma MaskIsRead(u: string, k: nat, raw: string)
    requires k + |MaskOf(raw)| <= |u| && u[k..k + |MaskOf(raw)|] == MaskOf(raw)
    requires InQuotes(raw) || k + |MaskOf(raw)| == |u| || IsSpace(u[k + |MaskOf(raw)|])
    ensures ValueEnd(u, k) == Some(k + |MaskOf(raw)|) && MaskOf(MaskOf(raw)) == MaskOf(raw)
  {
    var mask := MaskOf(raw);
    if InQuotes(raw) {
      QuotedMask(u, k, raw[0]);
    } else {
      var read := u[k..k + 3];
      assert u[k] == read[0] && u[k + 1] == read[1] && u[k + 2] == read[2];
      WordHasNoSpace(u, k, k + 3);
    }
  }

  lemma QuotedMask(u: string, k: nat, quote: char)
    requires k + 5 <= |u| && IsQuote(quote) && u[k..k + 5] == [quote] + MASK + [quote]
    ensures ValueEnd(u, k) == Some(k + 5)
  {
    assert u[k] == u[k..k + 5][0] == quote;
    assert u[k + 1] == u[k..k + 5][1] == '*';
    assert u[k + 2] == u[k..k + 5][2] == '*';
    assert u[k + 3] == u[k..k + 5][3] == '*';
    assert u[k + 4] == u[k..k + 5][4] == quote;
    assert QuotedEnd(u, k + 4, quote) == Some(k + 5);
    assert QuotedEnd(u, k + 3, quote) == Some(k + 5);
    assert QuotedEnd(u, k + 2, quote) == Some(k + 5);
  }

  // ---- The scan of a masked text ----

  lemma MaskedHead(rule: KeyRule, t: string, i: nat)
    requires i <= |t|
    ensures i == |t| ==> Masked(rule, t, i) == ""
    ensures i < |t| ==> Masked(rule, t, i) != "" && Masked(rule, t, i)[0] == t[i]
  {
  }

  /** From `k` on, `u` is the text of `t` from `i` on with its values masked. */
  ghost predicate IsMasked(rule: KeyRule, t: string, i: nat, u: string, k: nat) {
    i <= |t| && k <= |u| && u[k..] == Masked(rule, t, i) && SameBoundary(t, i, u, k)
  }

  /** Two texts on which the scan makes the same step: the same key, and values with the same mask. */
  ghost predicate Alike(rule: KeyRule, t: string, i: nat, rest: nat, u: string, k: nat, rest': nat) {
    && i <= |t| && k <= |u| && i < rest <= |t| && k < rest' <= |u|
    && var a, b := Next(rule, t, i), Next(rule, u, k);
    || (a == Plain(rest) && b == Plain(rest') && u[k..rest'] == t[i..rest])
    || (a.Secret? && b.Secret? && a.valueEnd == rest && b.valueEnd == rest' && u[k..b.end] == t[i..a.end]
        && MaskOf(u[b.end..rest']) == MaskOf(t[a.end..rest]) == u[b.end..rest'])
  }

  lemma PlainAgain(rule: KeyRule, t: string, i: nat, u: string, k: nat, end: nat)
    requires IsMasked(rule, t, i, u, k) && Next(rule, t, i) == Plain(end)
    ensures Next(rule, u, k) == Plain(k + (end - i)) && u[k..k + (end - i)] == t[i..end]
    ensures IsMasked(rule, t, end, u, k + (end - i))
  {
    var n, rest := end - i, Masked(rule, t, end);
    MaskedHead(rule, t, end);
    assert u[k..] == t[i..end] + rest;
    assert u[k..k + n] == t[i..end] && u[k + n..] == rest;
    assert k + n < |u| ==> u[k + n] == rest[0];
    PlainStep(rule, t, i, u, k, n);
    AgreeAt(t, i, u, k, n, n - 1);
  }

  lemma PlainStep(rule: KeyRule, t: string, i: nat, u: string, k: nat, n: nat)
    requires i <= |t| && Next(rule, t, i) == Plain(i + n) && Agree(t, i, u, k, n) && SameBoundary(t, i, u, k)
    requires if i + n < |t| then k + n < |u| && u[k + n] == t[i + n] else k + n == |u|
    ensures Next(rule, u, k) == Plain(k + n)
  {
    var key := Search(t, i).value;
    SameStep(t, i, u, k, n, key);
    SameName(t, i, u, k, n, key);
    if rule(t[key.nameFrom..key.nameTo]) {
      StillNoValue(t, i + n, u, k + n);
    }
  }

  lemma StillNoValue(t: string, i: nat, u: string, k: nat)
    requires i <= |t| && k <= |u| && ValueEnd(t, i).None?
    requires if i < |t| then k < |u| && u[k] == t[i] else k == |u|
    ensures ValueEnd(u, k).None?
  {
  }

  lemma SecretStep(rule: KeyRule, t: string, i: nat, u: string, k: nat, end: nat, valueEnd: nat, end': nat, rest': nat)
    requires i <= end <= |t| && k <= end' < |u| && Next(rule, t, i) == Secret(end, valueEnd) && SameBoundary(t, i, u, k)
    requires end' - k == end - i && u[k..end'] == t[i..end] && !IsSpace(u[end']) && ValueEnd(u, end') == Some(rest')
    ensures Next(rule, u, k) == Secret(end', rest')
  {
    var n, key := end - i, Search(t, i).value;
    assert Agree(t, i, u, k, n);
    SameStep(t, i, u, k, n, key);
    SameName(t, i, u, k, n, key);
  }

  /** Where the mask of a value stands in the masked text. */
  lemma SecretPlace(rule: KeyRule, t: string, i: nat, u: string, k: nat, end: nat, valueEnd: nat)
    returns (end': nat, rest': nat)
    requires i < end < valueEnd <= |t| && k <= |u| && Next(rule, t, i) == Secret(end, valueEnd)
    requires u[k..] == Masked(rule, t, i)
    ensures end' - k == end - i && end' < rest' <= |u| && rest' - end' == |MaskOf(t[end..valueEnd])|
    ensures u[k..end'] == t[i..end] && u[end'..rest'] == MaskOf(t[end..valueEnd])
    ensures u[rest'..] == Masked(rule, t, valueEnd)
  {
    end', rest' := k + (end - i), k + (end - i) + |MaskOf(t[end..valueEnd])|;
    ThreeParts(u, k, t[i..end], MaskOf(t[end..valueEnd]), Masked(rule, t, valueEnd));
  }

  /** The mask is read back as the value, and what follows it is masked text again. */
  lemma SecretRead(rule: KeyRule, t: string, i: nat, u: string, k: nat, end: nat, valueEnd: nat)
    returns (end': nat, rest': nat)
    requires i < end < valueEnd <= |t| && k <= |u| && Next(rule, t, i) == Secret(end, valueEnd)
    requires u[k..] == Masked(rule, t, i)
    ensures end' - k == end - i && end' < rest' <= |u| && u[k..end'] == t[i..end] && !IsSpace(u[end'])
    ensures u[end'..rest'] == MaskOf(t[end..valueEnd]) == MaskOf(u[end'..rest']) && ValueEnd(u, end') == Some(rest')
    ensures IsMasked(rule, t, valueEnd, u, rest')
  {
    end', rest' := SecretPlace(rule, t, i, u, k, end, valueEnd);
    SecretIsValue(rule, t, i, end, valueEnd);
    AfterValue(rule, t, end, valueEnd, u, end');
    MaskIsRead(u, end', t[end..valueEnd]);
  }

  lemma SecretAgain(rule: KeyRule, t: string, i: nat, u: string, k: nat, end: nat, valueEnd: nat) returns (rest': nat)
    requires IsMasked(rule, t, i, u, k) && i < end < valueEnd <= |t| && Next(rule, t, i) == Secret(end, valueEnd)
    ensures Alike(rule, t, i, valueEnd, u, k, rest') && IsMasked(rule, t, valueEnd, u, rest')
  {
    var end';
    end', rest' := SecretRead(rule, t, i, u, k, end, valueEnd);
    SecretStep(rule, t, i, u, k, end, valueEnd, end', rest');
    SecretsAlike(rule, t, i, end, valueEnd, u, k, end', rest');
  }

  lemma PlainsAlike(rule: KeyRule, t: string, i: nat, rest: nat, u: string, k: nat, rest': nat)
    requires i < rest <= |t| && k < rest' <= |u|
    requires Next(rule, t, i) == Plain(rest) && Next(rule, u, k) == Plain(rest') && u[k..rest'] == t[i..rest]
    ensures Alike(rule, t, i, rest, u, k, rest')
  {
  }

  lemma SecretsAlike(rule: KeyRule, t: string, i: nat, end: nat, rest: nat, u: string, k: nat, end': nat, rest': nat)
    requires i < end < rest <= |t| && k < end' < rest' <= |u|
    requires Next(rule, t, i) == Secret(end, rest) && Next(rule, u, k) == Secret(end', rest')
    requires u[k..end'] == t[i..end] && MaskOf(u[end'..rest']) == MaskOf(t[end..rest]) == u[end'..rest']
    ensures Alike(rule, t, i, rest, u, k, rest')
  {
  }

  lemma SecretIsValue(rule: KeyRule, t: string, i: nat, end: nat, valueEnd: nat)
    requires i <= |t| && Next(rule, t, i) == Secret(end, valueEnd)
    ensures ValueEnd(t, end) == Some(valueEnd)
  {
  }

  lemma ThreeParts(u: string, k: nat, a: string, b: string, c: string)
    requires k <= |u| && u[k..] == a + b + c
    ensures k + |a| + |b| <= |u| && u[k..k + |a|] == a && u[k + |a|..k + |a| + |b|] == b && u[k + |a| + |b|..] == c
  {
  }

  /** What follows the mask is what followed the value: where the value went up to a blank, a blank. */
  lemma AfterValue(rule: KeyRule, t: string, end: nat, valueEnd: nat, u: string, end': nat)
    requires end < valueEnd <= |t| && ValueEnd(t, end) == Some(valueEnd)
    requires end' + |MaskOf(t[end..valueEnd])| <= |u|
    requires u[end'..end' + |MaskOf(t[end..valueEnd])|] == MaskOf(t[end..valueEnd])
    requires u[end' + |MaskOf(t[end..valueEnd])|..] == Masked(rule, t, valueEnd)
    ensures var raw := t[end..valueEnd]; var valueEnd' := end' + |MaskOf(raw)|;
      && !IsSpace(u[end'])
      && (InQuotes(raw) || valueEnd' == |u| || IsSpace(u[valueEnd']))
      && SameBoundary(t, valueEnd, u, valueEnd')
  {
    var raw := t[end..valueEnd];
    var mask := MaskOf(raw);
    var valueEnd' := end' + |mask|;
    MaskedHead(rule, t, valueEnd);
    ValueShape(t, end);
    assert u[end'] == u[end'..valueEnd'][0] == mask[0];
    assert u[valueEnd' - 1] == u[end'..valueEnd'][|mask| - 1] == mask[|mask| - 1];
    assert valueEnd' < |u| ==> u[valueEnd'] == u[valueEnd'..][0];
    assert InQuotes(raw) ==> t[valueEnd - 1] == raw[|raw| - 1];
  }

  lemma MaskedAlike(rule: KeyRule, t: string, i: nat, rest: nat, u: string, k: nat, rest': nat)
    requires Alike(rule, t, i, rest, u, k, rest') && Masked(rule, u, rest') == Masked(rule, t, rest)
    ensures Masked(rule, u, k) == Masked(rule, t, i)
  {
  }

  lemma OutsideAlike(rule: KeyRule, t: string, i: nat, rest: nat, u: string, k: nat, rest': nat)
    requires Alike(rule, t, i, rest, u, k, rest') && Outside(rule, u, rest') == Outside(rule, t, rest)
    ensures Outside(rule, u, k) == Outside(rule, t, i)
  {
  }

  lemma NoSecretsAlike(rule: KeyRule, t: string, i: nat, rest: nat, u: string, k: nat, rest': nat)
    requires Alike(rule, t, i, rest, u, k, rest') && NoSecrets(rule, u, rest')
    ensures NoSecrets(rule, u, k)
  {
  }

  lemma PlainScan(rule: KeyRule, t: string, i: nat, u: string, k: nat, end: nat) returns (rest': nat)
    requires IsMasked(rule, t, i, u, k) && i < end <= |t| && Next(rule, t, i) == Plain(end)
    ensures Alike(rule, t, i, end, u, k, rest') && IsMasked(rule, t, end, u, rest')
  {
    rest' := k + (end - i);
    PlainAgain(rule, t, i, u, k, end);
    PlainsAlike(rule, t, i, end, u, k, rest');
  }

  /**
   Scanning a masked text finds the same keys, and only masks for values; `rest` and `rest'` are where the scans
   go on.
   */
  lemma ScansAlike(rule: KeyRule, t: string, i: nat, u: string, k: nat) returns (rest: nat, rest': nat)
    requires IsMasked(rule, t, i, u, k) && !Next(rule, t, i).Nothing?
    ensures Alike(rule, t, i, rest, u, k, rest') && IsMasked(rule, t, rest, u, rest')
  {
    match Next(rule, t, i)
    case Plain(end) =>
      rest := end;
      rest' := PlainScan(rule, t, i, u, k, end);
    case Secret(end, valueEnd) =>
      rest := valueEnd;
      rest' := SecretAgain(rule, t, i, u, k, end, valueEnd);
  }

  /**
   Masking a masked text changes nothing, leaves no credential, and what lies outside the values is as in the
   original.
   */
  lemma {:induction false} Rescan(rule: KeyRule, t: string, i: nat, u: string, k: nat)
    requires IsMasked(rule, t, i, u, k)
    ensures Masked(rule, u, k) == Masked(rule, t, i) && NoSecrets(rule, u, k)
    ensures Outside(rule, u, k) == Outside(rule, t, i)
    decreases |t| - i
  {
    if Next(rule, t, i).Nothing? {
      StillNothing(t, i, u, k);
    } else {
      var rest, rest' := ScansAlike(rule, t, i, u, k);
      Rescan(rule, t, rest, u, rest');
      MaskedAlike(rule, t, i, rest, u, k, rest');
      NoSecretsAlike(rule, t, i, rest, u, k, rest');
      OutsideAlike(rule, t, i, rest, u, k, rest');
    }
  }

  /** `_mask_pairs` is idempotent, leaves no credential it would mask, and keeps everything else in order. */
  lemma MaskingIsFinal(rule: KeyRule, text: string)
    ensures Masked(rule, Masked(rule, text, 0), 0) == Masked(rule, text, 0)
    ensures NoSecrets(rule, Masked(rule, text, 0), 0)
    ensures Outside(rule, Masked(rule, text, 0), 0) == Outside(rule, text, 0)
  {
    var u := Masked(rule, text, 0);
    assert u[0..] == u;
    Rescan(rule, text, 0, u, 0);
  }
}
