/**
 What redaction promises of a credential, told by the characters of the log line: whatever the secret is, the line that
 comes out is the same. Nothing here speaks of where the scanner ends a value.
 */
module RedactionRules {
  import opened Wrappers
  import opened Texts
  import opened Redaction

  // ---- How a credential is written ----

  /** A key as a log line holds it: in quotes or not, blanks about its sign. */
  datatype KeyText = KeyText(quote: string, name: string, before: string, sign: char, after: string)

  ghost predicate IsKeyText(k: KeyText) {
    && (k.quote == "" || (|k.quote| == 1 && IsQuote(k.quote[0])))
    && k.name != "" && (forall i :: 0 <= i < |k.name| ==> IsNameChar(k.name[i]))
    && (forall i :: 0 <= i < |k.before| ==> IsSpace(k.before[i]))
    && (forall i :: 0 <= i < |k.after| ==> IsSpace(k.after[i]))
    && IsSign(k.sign)
  }

  /** The letters outside ASCII that the pattern of a name matches as well, case being ignored. */
  const MORE_LETTERS := "\U{0130}\U{0131}\U{017F}\U{212A}"

  /** What a name, a quote and a sign are made of. */
  lemma CharactersAre(c: char)
    ensures IsNameChar(c) <==> c in CAPITALS || c in LETTERS || c in DIGITS || c in "_.-" || c in MORE_LETTERS
    ensures IsQuote(c) <==> c in "\"'"
    ensures IsSign(c) <==> c in "=:"
  {
    AlphabetIs(c);
  }

  function Quoted(k: KeyText): string {
    k.quote + k.name + k.quote
  }

  function Text(k: KeyText): string {
    Quoted(k) + k.before + [k.sign] + k.after
  }

  /** A backslash before each such quote and each backslash. */
  function Escaped(secret: string, quote: char): string {
    if secret == "" then ""
    else (if secret[0] == quote || secret[0] == '\\' then ['\\', secret[0]] else [secret[0]])
         + Escaped(secret[1..], quote)
  }

  /** What may stand between two such quotes: no bare quote, and each backslash before a character, but no newline. */
  predicate IsBody(s: string, quote: char) {
    s == ""
    || (if s[0] == '\\' then |s| > 1 && s[1] != '\n' && IsBody(s[2..], quote)
        else s[0] != quote && IsBody(s[1..], quote))
  }

  lemma {:induction false} EscapedIsBody(secret: string, quote: char)
    requires IsQuote(quote)
    ensures IsBody(Escaped(secret, quote), quote)
  {
    if secret != "" {
      EscapedIsBody(secret[1..], quote);
      var rest := Escaped(secret[1..], quote);
      var s := Escaped(secret, quote);
      if secret[0] == quote || secret[0] == '\\' {
        assert s == ['\\', secret[0]] + rest && s[2..] == rest;
      } else {
        assert s == [secret[0]] + rest && s[1..] == rest;
      }
    }
  }

  // ---- Reading it ----

  lemma {:induction false} NamesEndAt(t: string, i: nat, e: nat)
    requires i <= e <= |t| && (forall x :: i <= x < e ==> IsNameChar(t[x])) && (e == |t| || !IsNameChar(t[e]))
    ensures NameEnd(t, i) == e
    decreases e - i
  {
    if i < e {
      NamesEndAt(t, i + 1, e);
    }
  }

  /** From `i` on the text reads `s`. */
  ghost predicate Reads(t: string, i: nat, s: string) {
    i + |s| <= |t| && forall x :: 0 <= x < |s| ==> t[i + x] == s[x]
  }

  lemma ReadsBoth(t: string, i: nat, a: string, b: string)
    requires Reads(t, i, a + b)
    ensures Reads(t, i, a) && Reads(t, i + |a|, b)
  {
    forall x | 0 <= x < |b| ensures t[i + |a| + x] == b[x] {
      assert (a + b)[|a| + x] == b[x];
    }
    forall x | 0 <= x < |a| ensures t[i + x] == a[x] {
      assert (a + b)[x] == a[x];
    }
  }

  function KeyOf(i: nat, k: KeyText): Key {
    Key(i + |k.quote|, i + |k.quote| + |k.name|, i + |k.quote| + |k.name| + |k.quote| + |k.before|)
  }

  /** The parts of the key one after the other. */
  ghost predicate Laid(t: string, i: nat, k: KeyText) {
    var key := KeyOf(i, k);
    && Reads(t, i, k.quote) && Reads(t, key.nameFrom, k.name) && Reads(t, key.nameTo, k.quote)
    && Reads(t, key.nameTo + |k.quote|, k.before) && key.sign < |t| && t[key.sign] == k.sign
    && Reads(t, key.sign + 1, k.after)
  }

  lemma TextLaid(t: string, i: nat, k: KeyText)
    requires Reads(t, i, Text(k))
    ensures Laid(t, i, k) && i + |Text(k)| == KeyOf(i, k).sign + 1 + |k.after|
  {
    ReadsBoth(t, i, Quoted(k) + k.before + [k.sign], k.after);
    ReadsBoth(t, i, Quoted(k) + k.before, [k.sign]);
    ReadsBoth(t, i, Quoted(k), k.before);
    ReadsBoth(t, i, k.quote + k.name, k.quote);
    ReadsBoth(t, i, k.quote, k.name);
    assert [k.sign][0] == k.sign;
  }

  /** Neither a blank nor a sign is a name character or a quote. */
  lemma Separate(c: char)
    requires IsSpace(c) || IsSign(c)
    ensures !IsNameChar(c) && !IsQuote(c)
  {
  }

  lemma NameIsRead(t: string, i: nat, k: KeyText)
    requires IsKeyText(k) && Laid(t, i, k) && !NameBefore(t, i)
    ensures IsName(t, i, |k.quote|, KeyOf(i, k).nameTo)
  {
    var from, e := KeyOf(i, k).nameFrom, KeyOf(i, k).nameTo;
    assert t[from] == k.name[0];
    if k.quote == "" {
      assert t[e] == if k.before == "" then k.sign else k.before[0];
      Separate(t[e]);
    } else {
      assert t[i] == k.quote[0] == t[e];
    }
    forall x | from <= x < e ensures IsNameChar(t[x]) {
      assert t[x] == k.name[x - from];
    }
    NamesEndAt(t, from, e);
  }

  lemma BlanksEnd(t: string, i: nat, blanks: string)
    requires Reads(t, i, blanks) && forall x :: 0 <= x < |blanks| ==> IsSpace(blanks[x])
    requires i + |blanks| < |t| ==> !IsSpace(t[i + |blanks|])
    ensures SpaceEnd(t, i) == i + |blanks|
  {
    forall x | i <= x < i + |blanks| ensures IsSpace(t[x]) {
      assert t[x] == blanks[x - i];
    }
    SpacesEndAt(t, i, i + |blanks|);
  }

  lemma KeyIsRead(t: string, i: nat, k: KeyText)
    requires IsKeyText(k) && Laid(t, i, k) && !NameBefore(t, i)
    ensures Search(t, i) == Some(KeyOf(i, k))
  {
    NameIsRead(t, i, k);
    var key := KeyOf(i, k);
    assert !IsSpace(k.sign);
    BlanksEnd(t, key.nameTo + |k.quote|, k.before);
    KeyAtIsKey(t, i, |k.quote|, key);
  }

  lemma KeyEndIsRead(t: string, i: nat, k: KeyText)
    requires IsKeyText(k) && Laid(t, i, k)
    requires var end := KeyOf(i, k).sign + 1 + |k.after|; end < |t| ==> !IsSpace(t[end])
    ensures KeyEnd(t, KeyOf(i, k)) == KeyOf(i, k).sign + 1 + |k.after|
    ensures t[KeyOf(i, k).nameFrom..KeyOf(i, k).nameTo] == k.name
  {
    BlanksEnd(t, KeyOf(i, k).sign + 1, k.after);
  }

  lemma {:induction false} BodyIsRead(t: string, i: nat, body: string, quote: char)
    requires IsBody(body, quote) && IsQuote(quote) && Reads(t, i, body + [quote])
    ensures QuotedEnd(t, i, quote) == Some(i + |body| + 1)
    decreases |body|
  {
    var all := body + [quote];
    assert t[i] == all[0];
    if body != "" {
      var d := if body[0] == '\\' then 2 else 1;
      assert all == body[..d] + (body[d..] + [quote]);
      ReadsBoth(t, i, body[..d], body[d..] + [quote]);
      assert d == 2 ==> t[i + 1] == all[1];
      BodyIsRead(t, i + d, body[d..], quote);
    }
  }

  lemma {:induction false} EndIsBody(t: string, i: nat, quote: char)
    requires i <= |t| && IsQuote(quote) && QuotedEnd(t, i, quote).Some?
    ensures var e := QuotedEnd(t, i, quote).value; IsBody(t[i..e - 1], quote) && t[e - 1] == quote
    decreases |t| - i
  {
    var e := QuotedEnd(t, i, quote).value;
    if t[i] != quote {
      var d := if t[i] == '\\' then 2 else 1;
      EndIsBody(t, i + d, quote);
      assert t[i..e - 1][d..] == t[i + d..e - 1];
    }
  }

  // ---- What follows ----

  lemma {:induction false} TailSpaceEnd(t: string, i: nat, u: string, k: nat)
    requires i <= |t| && k <= |u| && t[i..] == u[k..]
    ensures SpaceEnd(t, i) - i == SpaceEnd(u, k) - k
    decreases |t| - i
  {
    assert |t| - i == |u| - k;
    if i < |t| {
      NextTail(t, i, u, k, 1);
      TailSpaceEnd(t, i + 1, u, k + 1);
    }
  }

  lemma {:induction false} TailWordEnd(t: string, i: nat, u: string, k: nat)
    requires i <= |t| && k <= |u| && t[i..] == u[k..]
    ensures WordEnd(t, i) - i == WordEnd(u, k) - k
    decreases |t| - i
  {
    assert |t| - i == |u| - k;
    if i < |t| {
      NextTail(t, i, u, k, 1);
      TailWordEnd(t, i + 1, u, k + 1);
    }
  }

  lemma {:induction false} TailQuotedEnd(t: string, i: nat, u: string, k: nat, quote: char)
    requires i <= |t| && k <= |u| && t[i..] == u[k..]
    ensures QuotedEnd(t, i, quote).Some? <==> QuotedEnd(u, k, quote).Some?
    ensures QuotedEnd(t, i, quote).Some? ==> QuotedEnd(t, i, quote).value - i == QuotedEnd(u, k, quote).value - k
    decreases |t| - i
  {
    assert |t| - i == |u| - k;
    if i < |t| {
      NextTail(t, i, u, k, 1);
      TailQuotedEnd(t, i + 1, u, k + 1, quote);
      if i + 1 < |t| {
        NextTail(t, i, u, k, 2);
        TailQuotedEnd(t, i + 2, u, k + 2, quote);
      }
    }
  }

  lemma NextTail(t: string, i: nat, u: string, k: nat, d: nat)
    requires i <= |t| && k <= |u| && t[i..] == u[k..] && i + d <= |t|
    ensures k + d <= |u| && t[i + d..] == u[k + d..]
    ensures d > 0 ==> t[i] == u[k] && t[i + d - 1] == u[k + d - 1]
  {
    assert |t| - i == |u| - k;
    assert t[i + d..] == t[i..][d..] && u[k + d..] == u[k..][d..];
    if d > 0 {
      assert t[i] == t[i..][0] && u[k] == u[k..][0];
      assert t[i + d - 1] == t[i..][d - 1] && u[k + d - 1] == u[k..][d - 1];
    }
  }

  lemma TailValueEnd(t: string, i: nat, u: string, k: nat)
    requires i <= |t| && k <= |u| && t[i..] == u[k..]
    ensures ValueEnd(t, i).Some? <==> ValueEnd(u, k).Some?
    ensures ValueEnd(t, i).Some? ==> ValueEnd(t, i).value - i == ValueEnd(u, k).value - k
  {
    assert |t| - i == |u| - k;
    if i < |t| {
      NextTail(t, i, u, k, 1);
      TailQuotedEnd(t, i + 1, u, k + 1, t[i]);
      TailWordEnd(t, i, u, k);
    }
  }

  lemma TailKey(t: string, i: nat, u: string, k: nat, key: Key)
    requires i <= |t| && k <= |u| && t[i..] == u[k..] && SameBoundary(t, i, u, k) && Search(t, i) == Some(key)
    ensures Search(u, k) == Some(Shifted(key, i, k))
    ensures u[Shifted(key, i, k).nameFrom..Shifted(key, i, k).nameTo] == t[key.nameFrom..key.nameTo]
  {
    var n := |t| - i;
    NextTail(t, i, u, k, n);
    assert t[i..i + n] == t[i..] && u[k..k + n] == u[k..];
    SearchAgain(t, i, u, k, n, key);
    SameName(t, i, u, k, n, key);
  }

  lemma TailKeyEnd(t: string, i: nat, u: string, k: nat, sign: nat, sign': nat)
    requires i <= |t| && k <= |u| && t[i..] == u[k..] && i <= sign < |t| && sign - i == sign' - k
    ensures sign' < |u| && SpaceEnd(u, sign' + 1) - k == SpaceEnd(t, sign + 1) - i
    ensures t[SpaceEnd(t, sign + 1)..] == u[SpaceEnd(u, sign' + 1)..]
  {
    NextTail(t, i, u, k, sign + 1 - i);
    TailSpaceEnd(t, sign + 1, u, sign' + 1);
    NextTail(t, i, u, k, SpaceEnd(t, sign + 1) - i);
  }

  /** The step the scan makes in one text is the step it makes in the other. */
  ghost predicate StepsAlike(a: Found, i: nat, b: Found, k: nat) {
    match a
    case Nothing => b == Nothing
    case Plain(end) => b.Plain? && b.end - k == end - i
    case Secret(end, valueEnd) => b.Secret? && b.end - k == end - i && b.valueEnd - k == valueEnd - i
  }

  /** The step of a scan that found this key. */
  lemma NextIs(rule: KeyRule, t: string, i: nat, key: Key, end: nat, name: string)
    requires i <= |t| && Search(t, i) == Some(key) && SpaceEnd(t, key.sign + 1) == end
    requires t[key.nameFrom..key.nameTo] == name
    ensures end <= |t| && Next(rule, t, i) == FoundOf(end, if rule(name) then ValueEnd(t, end) else None)
  {
  }

  function FoundOf(end: nat, value: Option<nat>): Found {
    if value.None? then Plain(end) else Secret(end, value.value)
  }

  lemma FoundAlike(i: nat, k: nat, end: nat, end': nat, a: Option<nat>, b: Option<nat>)
    requires end - i == end' - k && (a.Some? <==> b.Some?) && (a.Some? ==> a.value - i == b.value - k)
    ensures StepsAlike(FoundOf(end, a), i, FoundOf(end', b), k)
  {
  }

  lemma TailFound(rule: KeyRule, t: string, i: nat, end: nat, u: string, k: nat, end': nat, a: Key, b: Key)
    requires i <= |t| && Search(t, i) == Some(a) && SpaceEnd(t, a.sign + 1) == end
    requires k <= |u| && Search(u, k) == Some(b) && SpaceEnd(u, b.sign + 1) == end'
    requires t[a.nameFrom..a.nameTo] == u[b.nameFrom..b.nameTo]
    requires end - i == end' - k && end <= |t| && end' <= |u| && t[end..] == u[end'..]
    ensures StepsAlike(Next(rule, t, i), i, Next(rule, u, k), k)
  {
    var name := t[a.nameFrom..a.nameTo];
    NextIs(rule, t, i, a, end, name);
    NextIs(rule, u, k, b, end', name);
    TailValueEnd(t, end, u, end');
    if rule(name) {
      FoundAlike(i, k, end, end', ValueEnd(t, end), ValueEnd(u, end'));
    }
  }

  lemma TailNext(rule: KeyRule, t: string, i: nat, u: string, k: nat)
    requires i <= |t| && k <= |u| && t[i..] == u[k..] && SameBoundary(t, i, u, k)
    ensures StepsAlike(Next(rule, t, i), i, Next(rule, u, k), k)
  {
    if Search(t, i).None? {
      StillNothing(t, i, u, k);
    } else {
      TailNextKey(rule, t, i, u, k, Search(t, i).value);
    }
  }

  lemma TailNextKey(rule: KeyRule, t: string, i: nat, u: string, k: nat, a: Key)
    requires i <= |t| && k <= |u| && t[i..] == u[k..] && SameBoundary(t, i, u, k) && Search(t, i) == Some(a)
    ensures StepsAlike(Next(rule, t, i), i, Next(rule, u, k), k)
  {
    TailKey(t, i, u, k, a);
    TailSameKey(rule, t, i, u, k, a, Shifted(a, i, k));
  }

  lemma TailSameKey(rule: KeyRule, t: string, i: nat, u: string, k: nat, a: Key, b: Key)
    requires i <= |t| && k <= |u| && t[i..] == u[k..] && Search(t, i) == Some(a) && Search(u, k) == Some(b)
    requires a.sign - i == b.sign - k && t[a.nameFrom..a.nameTo] == u[b.nameFrom..b.nameTo]
    ensures StepsAlike(Next(rule, t, i), i, Next(rule, u, k), k)
  {
    TailKeyEnd(t, i, u, k, a.sign, b.sign);
    TailFound(rule, t, i, SpaceEnd(t, a.sign + 1), u, k, SpaceEnd(u, b.sign + 1), a, b);
  }

  lemma TailStep(t: string, i: nat, u: string, k: nat, e: nat, e': nat)
    requires i <= |t| && k <= |u| && t[i..] == u[k..] && i < e <= |t| && e - i == e' - k
    ensures e' <= |u| && t[e..] == u[e'..] && SameBoundary(t, e, u, e') && t[i..e] == u[k..e']
  {
    var d := e - i;
    NextTail(t, i, u, k, d);
    TailPart(t, i, u, k, 0, d);
  }

  lemma MaskedPlain(rule: KeyRule, t: string, i: nat, end: nat)
    requires i <= |t| && Next(rule, t, i) == Plain(end)
    ensures Masked(rule, t, i) == t[i..end] + Masked(rule, t, end)
  {
  }

  lemma MaskedSecret(rule: KeyRule, t: string, i: nat, end: nat, valueEnd: nat)
    requires i <= |t| && Next(rule, t, i) == Secret(end, valueEnd)
    ensures Masked(rule, t, i) == t[i..end] + MaskOf(t[end..valueEnd]) + Masked(rule, t, valueEnd)
  {
  }

  lemma PlainAlike(rule: KeyRule, t: string, i: nat, end: nat, u: string, k: nat, end': nat)
    requires i <= |t| && k <= |u| && Next(rule, t, i) == Plain(end) && Next(rule, u, k) == Plain(end')
    requires t[i..end] == u[k..end'] && Masked(rule, t, end) == Masked(rule, u, end')
    ensures Masked(rule, t, i) == Masked(rule, u, k)
  {
    MaskedPlain(rule, t, i, end);
    MaskedPlain(rule, u, k, end');
  }

  lemma SecretAlike(rule: KeyRule, t: string, i: nat, end: nat, valueEnd: nat, u: string, k: nat, end': nat,
                    valueEnd': nat)
    requires i <= |t| && Next(rule, t, i) == Secret(end, valueEnd)
    requires k <= |u| && Next(rule, u, k) == Secret(end', valueEnd')
    requires t[i..end] == u[k..end'] && MaskOf(t[end..valueEnd]) == MaskOf(u[end'..valueEnd'])
    requires Masked(rule, t, valueEnd) == Masked(rule, u, valueEnd')
    ensures Masked(rule, t, i) == Masked(rule, u, k)
  {
    MaskedSecret(rule, t, i, end, valueEnd);
    MaskedSecret(rule, u, k, end', valueEnd');
  }

  lemma SecretTail(t: string, i: nat, u: string, k: nat, from: nat, from': nat, to: nat, to': nat)
    requires i <= |t| && k <= |u| && t[i..] == u[k..] && i <= from <= to <= |t|
    requires from - i == from' - k && to - i == to' - k
    ensures to' <= |u| && MaskOf(t[from..to]) == MaskOf(u[from'..to'])
  {
    forall x | 0 <= x < to - from ensures t[from..to][x] == u[from'..to'][x] {
      TailAt(t, i, u, k, from + x, from' + x);
    }
    assert t[from..to] == u[from'..to'];
  }

  lemma TailAt(t: string, i: nat, u: string, k: nat, x: nat, x': nat)
    requires i <= |t| && k <= |u| && t[i..] == u[k..] && i <= x < |t| && x - i == x' - k
    ensures x' < |u| && t[x] == u[x']
  {
    assert |t| - i == |u| - k && t[i..][x - i] == t[x] && u[k..][x - i] == u[x'];
  }

  /** The scan of what is left does not depend on what came before. */
  lemma {:induction false} SameTail(rule: KeyRule, t: string, i: nat, u: string, k: nat)
    requires i <= |t| && k <= |u| && t[i..] == u[k..] && SameBoundary(t, i, u, k)
    ensures Masked(rule, t, i) == Masked(rule, u, k)
    decreases |t| - i
  {
    TailNext(rule, t, i, u, k);
    match Next(rule, t, i)
    case Nothing =>
    case Plain(end) =>
      var end' := Next(rule, u, k).end;
      TailStep(t, i, u, k, end, end');
      SameTail(rule, t, end, u, end');
      PlainAlike(rule, t, i, end, u, k, end');
    case Secret(end, valueEnd) =>
      var end', valueEnd' := Next(rule, u, k).end, Next(rule, u, k).valueEnd;
      TailStep(t, i, u, k, end, end');
      TailStep(t, i, u, k, valueEnd, valueEnd');
      SecretTail(t, i, u, k, end, end', valueEnd, valueEnd');
      SameTail(rule, t, valueEnd, u, valueEnd');
      SecretAlike(rule, t, i, end, valueEnd, u, k, end', valueEnd');
  }

  lemma TailPart(t: string, i: nat, u: string, k: nat, from: nat, to: nat)
    requires i <= |t| && k <= |u| && t[i..] == u[k..] && from <= to <= |t| - i
    ensures k + to <= |u| && t[i + from..i + to] == u[k + from..k + to]
  {
    var n := |t| - i;
    NextTail(t, i, u, k, n);
    assert t[i..i + n] == t[i..] && u[k..k + n] == u[k..];
    SamePart(t, i, u, k, n, from, to);
  }

  // ---- The secret is hidden ----

  lemma ReadsText(t: string, a: string, b: string)
    requires t == a + b
    ensures Reads(t, 0, a) && Reads(t, |a|, b) && t[|a|..] == b && t[..|a|] == a
  {
  }

  lemma ThreeReads(t: string, a: string, b: string, c: string)
    requires t == a + b + c
    ensures Reads(t, 0, a) && t[0..|a|] == a && t[|a|..|a| + |b|] == b && t[|a| + |b|..] == c
    ensures b != "" ==> t[|a|] == b[0] && t[|a| + |b| - 1] == b[|b| - 1]
  {
  }

  /** The line of a sensitive key and its value. */
  lemma SecretIsMasked(rule: KeyRule, t: string, k: KeyText, value: string, rest: string)
    requires IsKeyText(k) && rule(k.name) && t == Text(k) + value + rest && value != "" && !IsSpace(value[0])
    requires ValueEnd(t, |Text(k)|) == Some(|Text(k)| + |value|)
    requires rest == "" || IsSpace(rest[0]) || !IsNameChar(value[|value| - 1])
    ensures Masked(rule, t, 0) == Text(k) + MaskOf(value) + Masked(rule, rest, 0)
  {
    var head := Text(k);
    ThreeReads(t, head, value, rest);
    KeyIsScanned(rule, t, k, head);
    MaskedParts(rule, t, |head|, |head| + |value|, rest);
  }

  lemma MaskedParts(rule: KeyRule, t: string, end: nat, valueEnd: nat, rest: string)
    requires Next(rule, t, 0) == Secret(end, valueEnd) && t[valueEnd..] == rest
    requires rest == "" || IsSpace(rest[0]) || !IsNameChar(t[valueEnd - 1])
    ensures Masked(rule, t, 0) == t[0..end] + MaskOf(t[end..valueEnd]) + Masked(rule, rest, 0)
  {
    if rest != "" {
      assert t[valueEnd] == rest[0];
      if IsSpace(rest[0]) {
        Separate(rest[0]);
      }
    }
    SameTail(rule, t, valueEnd, rest, 0);
    MaskedSecret(rule, t, 0, end, valueEnd);
  }

  /** The scan finds the key first. */
  lemma KeyIsScanned(rule: KeyRule, t: string, k: KeyText, head: string)
    requires IsKeyText(k) && head == Text(k) && Reads(t, 0, head) && (|head| < |t| ==> !IsSpace(t[|head|]))
    ensures Next(rule, t, 0) == FoundOf(|head|, if rule(k.name) then ValueEnd(t, |head|) else None)
  {
    TextLaid(t, 0, k);
    KeyIsNext(rule, t, k, KeyOf(0, k), |head|);
  }

  lemma KeyIsNext(rule: KeyRule, t: string, k: KeyText, key: Key, end: nat)
    requires IsKeyText(k) && Laid(t, 0, k) && key == KeyOf(0, k)
    requires end == key.sign + 1 + |k.after| && (end < |t| ==> !IsSpace(t[end]))
    ensures end <= |t| && Next(rule, t, 0) == FoundOf(end, if rule(k.name) then ValueEnd(t, end) else None)
  {
    KeyIsRead(t, 0, k);
    KeyEndIsRead(t, 0, k);
    NextIs(rule, t, 0, key, end, k.name);
  }

  /** A secret printed in quotes: whatever it is, the line is the same, and all of it is gone. */
  lemma QuotedSecretIsHidden(rule: KeyRule, k: KeyText, quote: char, secret: string, rest: string)
    requires IsKeyText(k) && rule(k.name) && IsQuote(quote)
    ensures Masked(rule, Text(k) + [quote] + Escaped(secret, quote) + [quote] + rest, 0)
      == Text(k) + [quote] + "***" + [quote] + Masked(rule, rest, 0)
  {
    EscapedIsBody(secret, quote);
    BodyIsHidden(rule, k, quote, Escaped(secret, quote), rest);
  }

  /** So is any other string in quotes. */
  lemma BodyIsHidden(rule: KeyRule, k: KeyText, quote: char, body: string, rest: string)
    requires IsKeyText(k) && rule(k.name) && IsQuote(quote) && IsBody(body, quote)
    ensures Masked(rule, Text(k) + [quote] + body + [quote] + rest, 0)
      == Text(k) + [quote] + "***" + [quote] + Masked(rule, rest, 0)
  {
    var value := [quote] + body + [quote];
    var t := Text(k) + value + rest;
    FiveParts(Text(k), quote, body, rest);
    MiddleReads(t, Text(k), value, rest);
    QuotedIsRead(t, |Text(k)|, body, quote);
    SecretIsMasked(rule, t, k, value, rest);
    FiveParts(Text(k), quote, "***", Masked(rule, rest, 0));
  }

  lemma FiveParts(a: string, quote: char, body: string, b: string)
    ensures a + ([quote] + body + [quote]) + b == a + [quote] + body + [quote] + b
  {
  }

  lemma MiddleReads(t: string, a: string, b: string, c: string)
    requires t == a + b + c
    ensures Reads(t, |a|, b)
  {
    forall x | 0 <= x < |b| ensures t[|a| + x] == b[x] {
    }
  }

  lemma QuotedIsRead(t: string, i: nat, body: string, quote: char)
    requires IsQuote(quote) && IsBody(body, quote) && Reads(t, i, [quote] + body + [quote])
    ensures ValueEnd(t, i) == Some(i + |body| + 2)
  {
    ReadsBoth(t, i, [quote] + body, [quote]);
    ReadsBoth(t, i, [quote], body);
    assert t[i] == [quote][0] && t[i + 1 + |body|] == [quote][0];
    BodyReads(t, i + 1, body, quote);
    BodyIsRead(t, i + 1, body, quote);
  }

  lemma BodyReads(t: string, i: nat, body: string, quote: char)
    requires Reads(t, i, body) && i + |body| < |t| && t[i + |body|] == quote
    ensures Reads(t, i, body + [quote])
  {
  }

  /** A secret without blanks and quotes about it: it goes up to the next blank or the end. */
  lemma BareSecretIsHidden(rule: KeyRule, k: KeyText, secret: string, rest: string)
    requires IsKeyText(k) && rule(k.name) && secret != "" && !IsQuote(secret[0])
    requires (forall i :: 0 <= i < |secret| ==> !IsSpace(secret[i])) && (rest == "" || IsSpace(rest[0]))
    ensures Masked(rule, Text(k) + secret + rest, 0) == Text(k) + "***" + Masked(rule, rest, 0)
  {
    var t := Text(k) + secret + rest;
    WordIsRead(t, k, secret, rest);
    SecretIsMasked(rule, t, k, secret, rest);
  }

  lemma WordIsRead(t: string, k: KeyText, word: string, rest: string)
    requires t == Text(k) + word + rest && word != "" && (rest == "" || IsSpace(rest[0]))
    requires forall i :: 0 <= i < |word| ==> !IsSpace(word[i])
    ensures WordEnd(t, |Text(k)|) == |Text(k)| + |word| && t[|Text(k)|] == word[0]
  {
    var i := |Text(k)|;
    ReadsText(t, Text(k) + word, rest);
    ReadsBoth(t, 0, Text(k), word);
    assert rest != "" ==> t[i + |word|] == rest[0];
    forall x | i <= x < i + |word| ensures !IsSpace(t[x]) {
      assert t[x] == word[x - i];
    }
    WordHasNoSpace(t, i, i + |word|);
  }

  /** No quote further on closes the string. */
  ghost predicate NeverClosed(s: string, quote: char) {
    forall n :: 0 <= n < |s| && s[n] == quote ==> !IsBody(s[..n], quote)
  }

  /** Where a quote is never closed, the secret is masked up to the next blank or the end. */
  lemma UnclosedSecretIsHidden(rule: KeyRule, k: KeyText, secret: string, rest: string)
    requires IsKeyText(k) && rule(k.name) && secret != "" && IsQuote(secret[0])
    requires NeverClosed(secret[1..] + rest, secret[0])
    requires (forall i :: 0 <= i < |secret| ==> !IsSpace(secret[i])) && (rest == "" || IsSpace(rest[0]))
    ensures var masked := Masked(rule, Text(k) + secret + rest, 0);
      || masked == Text(k) + "***" + Masked(rule, rest, 0)
      || masked == Text(k) + ([secret[0]] + "***" + [secret[0]]) + Masked(rule, rest, 0)
  {
    var t := Text(k) + secret + rest;
    WordIsRead(t, k, secret, rest);
    TailOf(t, Text(k), secret, rest);
    UnclosedIsRead(t, |Text(k)|);
    SecretIsMasked(rule, t, k, secret, rest);
  }

  lemma TailOf(t: string, a: string, b: string, c: string)
    requires t == a + b + c && b != ""
    ensures t[|a| + 1..] == b[1..] + c && t[|a|] == b[0]
  {
  }

  lemma UnclosedIsRead(t: string, i: nat)
    requires i < |t| && IsQuote(t[i]) && NeverClosed(t[i + 1..], t[i])
    ensures ValueEnd(t, i) == Some(WordEnd(t, i))
  {
    EndCloses(t, i + 1, t[i]);
  }

  lemma EndCloses(t: string, i: nat, quote: char)
    requires i <= |t| && IsQuote(quote)
    ensures QuotedEnd(t, i, quote).Some? ==> !NeverClosed(t[i..], quote)
  {
    if QuotedEnd(t, i, quote).Some? {
      EndIsBody(t, i, quote);
      var n := QuotedEnd(t, i, quote).value - 1 - i;
      assert t[i..][..n] == t[i..i + n] && t[i..][n] == t[i + n];
    }
  }

  /** The value of any other key stays, and what is in it is looked at in turn. */
  lemma OtherValuesStay(rule: KeyRule, k: KeyText, more: string)
    requires IsKeyText(k) && !rule(k.name) && (more == "" || !IsSpace(more[0]))
    ensures Masked(rule, Text(k) + more, 0) == Text(k) + Masked(rule, more, 0)
  {
    var head := Text(k);
    var t := head + more;
    ReadsText(t, head, more);
    assert more != "" ==> t[|head|] == more[0];
    KeyIsScanned(rule, t, k, head);
    TextLaid(t, 0, k);
    SignBefore(t, k, |head|);
    SameTail(rule, t, |head|, more, 0);
    MaskedPlain(rule, t, 0, |head|);
  }

  lemma SignBefore(t: string, k: KeyText, end: nat)
    requires IsKeyText(k) && Laid(t, 0, k) && end == KeyOf(0, k).sign + 1 + |k.after|
    ensures !NameBefore(t, end)
  {
    assert t[end - 1] == if k.after == "" then k.sign else k.after[|k.after| - 1];
    Separate(t[end - 1]);
  }

  // ---- The text before a key ----

  /** Up to the sign of a key, no sign. */
  lemma NoSignWithin(t: string, i: nat, k: KeyText, x: nat)
    requires IsKeyText(k) && Laid(t, i, k) && i <= x < KeyOf(i, k).sign
    ensures !IsSign(t[x])
  {
    var key := KeyOf(i, k);
    if x < key.nameFrom {
      assert t[x] == k.quote[x - i];
    } else if x < key.nameTo {
      assert t[x] == k.name[x - key.nameFrom];
    } else if x < key.nameTo + |k.quote| {
      assert t[x] == k.quote[x - key.nameTo];
    } else {
      assert t[x] == k.before[x - key.nameTo - |k.quote|];
    }
  }

  lemma {:induction false} AllNames(t: string, i: nat, x: nat)
    requires i <= |t| && i <= x < NameEnd(t, i)
    ensures IsNameChar(t[x])
    decreases x - i
  {
    if x > i {
      AllNames(t, i + 1, x);
    }
  }

  /** A key found before could only have the sign of this one. */
  lemma SameSign(t: string, i: nat, n: nat, k: KeyText)
    requires IsKeyText(k) && Laid(t, n, k) && i < n && (forall x :: 0 <= x < n ==> !IsSign(t[x]))
    requires KeyAt(t, i).Some?
    ensures KeyAt(t, i).value.sign == KeyOf(n, k).sign
  {
    var sign, key := KeyOf(n, k).sign, KeyAt(t, i).value;
    if n <= key.sign < sign {
      NoSignWithin(t, n, k, key.sign);
    }
    if sign < key.sign {
      NoEarlierSign(t, i, sign);
    }
  }

  /** The name of a key found before would reach into the name of this one. */
  lemma NameReaches(t: string, i: nat, quoted: nat, key: Key, f: nat)
    requires quoted <= 1 && IsKey(t, i, quoted, key) && key.nameFrom <= f < key.sign && IsNameChar(t[f])
    ensures f < key.nameTo && forall x :: key.nameFrom <= x <= f ==> IsNameChar(t[x])
  {
    if f >= key.nameTo + quoted {
      AllSpaces(t, key.nameTo + quoted, f);
    }
    forall x | key.nameFrom <= x <= f && f < key.nameTo ensures IsNameChar(t[x]) {
      AllNames(t, key.nameFrom, x);
    }
  }

  /** What ends the name, and what begins it. */
  lemma AroundName(t: string, n: nat, k: KeyText)
    requires IsKeyText(k) && Laid(t, n, k) && !NameBefore(t, n)
    ensures IsNameChar(t[KeyOf(n, k).nameFrom]) && (k.quote != "" ==> !IsNameChar(t[n]))
    ensures k.quote == "" ==>
      NameEnd(t, n) == KeyOf(n, k).nameTo < |t| && !IsQuote(t[KeyOf(n, k).nameTo])
  {
    var key := KeyOf(n, k);
    NameIsRead(t, n, k);
    assert t[key.nameFrom] == k.name[0];
    if k.quote == "" {
      assert t[key.nameTo] == if k.before == "" then k.sign else k.before[0];
      Separate(t[key.nameTo]);
    } else {
      assert t[n] == k.quote[0];
    }
  }

  lemma NoKeyBefore(t: string, i: nat, n: nat, k: KeyText)
    requires IsKeyText(k) && Laid(t, n, k) && i < n && (forall x :: 0 <= x < n ==> !IsSign(t[x])) && !NameBefore(t, n)
    ensures KeyAt(t, i).None?
  {
    AroundName(t, n, k);
    if KeyAt(t, i).Some? {
      SameSign(t, i, n, k);
      var key := KeyAt(t, i).value;
      KeyAtIsKey(t, i, key.nameFrom - i, key);
      NameReaches(t, i, key.nameFrom - i, key, KeyOf(n, k).nameFrom);
    }
  }

  lemma {:induction false} SearchSkips(t: string, i: nat, n: nat)
    requires i <= n <= |t| && forall x :: i <= x < n ==> KeyAt(t, x).None?
    ensures Search(t, i) == Search(t, n)
    decreases n - i
  {
    if i < n {
      SearchHere(t, i);
      SearchSkips(t, i + 1, n);
    }
  }

  lemma SameNext(rule: KeyRule, t: string, n: nat)
    requires n <= |t| && Search(t, 0) == Search(t, n)
    ensures Next(rule, t, 0) == Next(rule, t, n)
  {
  }

  lemma SplitAt(t: string, n: nat, end: nat)
    requires n <= end <= |t|
    ensures t[0..end] == t[0..n] + t[n..end]
  {
  }

  lemma Regroup(a: string, b: string, c: string, d: string)
    ensures (a + b) + c + d == a + (b + c + d) && (a + b) + c == a + (b + c)
  {
  }

  lemma PlainFurther(rule: KeyRule, t: string, n: nat, end: nat)
    requires n <= |t| && Next(rule, t, 0) == Next(rule, t, n) == Plain(end)
    ensures Masked(rule, t, 0) == t[0..n] + Masked(rule, t, n)
  {
    MaskedPlain(rule, t, 0, end);
    MaskedPlain(rule, t, n, end);
    SplitAt(t, n, end);
    Regroup(t[0..n], t[n..end], Masked(rule, t, end), "");
  }

  lemma SecretFurther(rule: KeyRule, t: string, n: nat, end: nat, valueEnd: nat)
    requires n <= |t| && Next(rule, t, 0) == Next(rule, t, n) == Secret(end, valueEnd)
    ensures Masked(rule, t, 0) == t[0..n] + Masked(rule, t, n)
  {
    MaskedSecret(rule, t, 0, end, valueEnd);
    MaskedSecret(rule, t, n, end, valueEnd);
    SplitAt(t, n, end);
    Regroup(t[0..n], t[n..end], MaskOf(t[end..valueEnd]), Masked(rule, t, valueEnd));
  }

  lemma MaskedFurther(rule: KeyRule, t: string, n: nat)
    requires n <= |t| && Next(rule, t, 0) == Next(rule, t, n)
    ensures Masked(rule, t, 0) == t[0..n] + Masked(rule, t, n)
  {
    match Next(rule, t, n)
    case Nothing => SplitAt(t, n, |t|);
    case Plain(end) => PlainFurther(rule, t, n, end);
    case Secret(end, valueEnd) => SecretFurther(rule, t, n, end, valueEnd);
  }

  /** Text without a sign that does not run into the key's name stays as it is. */
  lemma TextBefore(rule: KeyRule, before: string, k: KeyText, more: string)
    requires IsKeyText(k) && (forall x :: 0 <= x < |before| ==> !IsSign(before[x]))
    requires before == "" || !IsNameChar(before[|before| - 1])
    ensures Masked(rule, before + (Text(k) + more), 0) == before + Masked(rule, Text(k) + more, 0)
  {
    var head := Text(k);
    var more' := head + more;
    var t := before + more';
    FrontOf(t, before, more');
    ReadsText(more', head, more);
    FurtherReads(t, |before|, more', head);
    AfterText(rule, t, |before|, more', k, head);
  }

  lemma FurtherReads(t: string, n: nat, tail: string, head: string)
    requires n <= |t| && t[n..] == tail && Reads(tail, 0, head)
    ensures Reads(t, n, head)
  {
    forall x | 0 <= x < |head| ensures t[n + x] == head[x] {
      assert t[n..][x] == tail[0 + x];
    }
  }

  lemma AfterText(rule: KeyRule, t: string, n: nat, tail: string, k: KeyText, head: string)
    requires IsKeyText(k) && head == Text(k) && Reads(t, n, head) && n <= |t| && t[n..] == tail
    requires (forall x :: 0 <= x < n ==> !IsSign(t[x])) && !NameBefore(t, n)
    ensures Masked(rule, t, 0) == t[0..n] + Masked(rule, tail, 0)
  {
    TextLaid(t, n, k);
    SkipsTo(rule, t, n, k);
    SameTail(rule, t, n, tail, 0);
  }

  lemma FrontOf(t: string, a: string, b: string)
    requires t == a + b
    ensures (forall x :: 0 <= x < |a| ==> t[x] == a[x]) && t[0..|a|] == a && t[|a|..] == b
  {
  }

  lemma SkipsTo(rule: KeyRule, t: string, n: nat, k: KeyText)
    requires IsKeyText(k) && Laid(t, n, k) && (forall x :: 0 <= x < n ==> !IsSign(t[x])) && !NameBefore(t, n)
    ensures Masked(rule, t, 0) == t[0..n] + Masked(rule, t, n)
  {
    forall i | 0 <= i < n ensures KeyAt(t, i).None? {
      NoKeyBefore(t, i, n, k);
    }
    SearchSkips(t, 0, n);
    SameNext(rule, t, n);
    MaskedFurther(rule, t, n);
  }

  lemma {:induction false} NoSignNoKey(t: string, i: nat)
    requires i <= |t| && forall x :: 0 <= x < |t| ==> !IsSign(t[x])
    ensures Search(t, i).None?
    decreases |t| - i
  {
    SearchHere(t, i);
    if i < |t| {
      NoSignNoKey(t, i + 1);
    }
  }

  /** Text without a sign holds no credential. */
  lemma NoSignNoChange(rule: KeyRule, t: string)
    requires forall x :: 0 <= x < |t| ==> !IsSign(t[x])
    ensures Masked(rule, t, 0) == t
  {
    NoSignNoKey(t, 0);
  }
}
