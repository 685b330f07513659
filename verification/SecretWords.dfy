/** Which keys redaction takes for credentials, told letter by letter. */
module SecretWords {
  import opened Texts
  import opened Redaction

  /** A key that holds a credential contains one of these words, or says which key it is. */
  const SECRET_WORDS: set<string> :=
    {"password", "passwd", "passphrase", "secret", "token", "credential", "signature"}

  const KINDS_OF_KEY: set<string> := {"api", "access", "private"}

  const SEPARATORS: set<string> := {"", "_", ".", "-"}

  /** The letter in either case; the sign for kelvin is a capital k as well. */
  predicate IsCaseOf(c: char, w: char) {
    || (c == w && !('A' <= c <= 'Z'))
    || ('a' <= w <= 'z' && c == w - 'a' + 'A')
    || (w == 'k' && c == '\U{212A}')
  }

  /** At `i` the word is spelled out, in whatever case. */
  ghost predicate IsSpelled(name: string, i: nat, word: string) {
    i + |word| <= |name| && forall x :: 0 <= x < |word| ==> IsCaseOf(name[i + x], word[x])
  }

  ghost predicate IsAnywhere(name: string, word: string) {
    exists i: nat :: IsSpelled(name, i, word)
  }

  ghost predicate EndsIn(name: string, word: string) {
    |word| <= |name| && IsSpelled(name, |name| - |word|, word)
  }

  /** Letters in lower case, and the signs that may separate them. */
  ghost predicate IsPlain(word: string) {
    forall x :: 0 <= x < |word| ==> 'a' <= word[x] <= 'z' || word[x] == '_' || word[x] == '.' || word[x] == '-'
  }

  /** No `i` at the end, which the capital with a dot would stand for as well. */
  ghost predicate IsWord(word: string) {
    word != "" && word[|word| - 1] != 'i' && IsPlain(word)
  }

  lemma SpelledFurther(name: string, i: nat, word: string)
    requires word != "" && i < |name|
    ensures IsSpelled(name, i, word) <==> IsCaseOf(name[i], word[0]) && IsSpelled(name, i + 1, word[1..])
  {
    if IsCaseOf(name[i], word[0]) && IsSpelled(name, i + 1, word[1..]) {
      forall x | 0 <= x < |word| ensures IsCaseOf(name[i + x], word[x]) {
        assert x > 0 ==> name[i + x] == name[i + 1 + (x - 1)] && word[x] == word[1..][x - 1];
      }
    }
    if IsSpelled(name, i, word) {
      assert name[i + 0] == name[i];
      forall x | 0 <= x < |word| - 1 ensures IsCaseOf(name[i + 1 + x], word[1..][x]) {
        assert name[i + 1 + x] == name[i + (x + 1)] && word[1..][x] == word[x + 1];
      }
    }
  }

  lemma LowerFrom(name: string, i: nat)
    requires i < |name|
    ensures Lower(name[i..]) == Lower([name[i]]) + Lower(name[i + 1..])
  {
    assert name[i..][0] == name[i] && name[i..][1..] == name[i + 1..];
    assert [name[i]][1..] == "";
  }

  lemma LowerOne(c: char, w: char)
    requires 'a' <= w <= 'z' || w == '_' || w == '.' || w == '-'
    ensures IsCaseOf(c, w) <==> Lower([c]) == [w]
    ensures Lower([c]) != "" && (Lower([c])[0] == w ==> IsCaseOf(c, w) || (w == 'i' && Lower([c]) == "i\U{0307}"))
  {
    assert [c][1..] == "" && Lower([c][1..]) == "";
    assert 'a' <= w <= 'z' && c == w - 'a' + 'A' ==> c - 'A' + 'a' == w;
    if Lower([c]) == [w] {
      assert Lower([c])[0] == w;
    }
  }

  lemma {:induction false} PrefixIsSpelled(name: string, i: nat, word: string)
    requires i <= |name| && (word == "" || IsWord(word))
    ensures word <= Lower(name[i..]) <==> IsSpelled(name, i, word)
    decreases |word|
  {
    if word != "" && i < |name| {
      LowerFrom(name, i);
      LowerOne(name[i], word[0]);
      SpelledFurther(name, i, word);
      PrefixIsSpelled(name, i + 1, word[1..]);
      WordPrefix(word, Lower([name[i]]), Lower(name[i + 1..]));
    }
  }

  lemma WordPrefix(word: string, first: string, rest: string)
    requires IsWord(word) && first != ""
    requires first[0] == word[0] ==> first == [word[0]] || (word[0] == 'i' && first == "i\U{0307}")
    ensures word <= first + rest <==> first == [word[0]] && word[1..] <= rest
  {
    if word <= first + rest {
      assert word[0] == (first + rest)[0] == first[0];
      assert |word| > 1 ==> word[1] == (first + rest)[1];
      if first == [word[0]] {
        assert word[1..] <= (first + rest)[1..] == rest;
      }
    }
    if first == [word[0]] && word[1..] <= rest {
      assert word == [word[0]] + word[1..];
    }
  }

  lemma ContainsFurther(c: char, rest: string, word: string)
    ensures Contains([c] + rest, word) <==> word <= [c] + rest || Contains(rest, word)
  {
    assert ([c] + rest)[1..] == rest;
  }

  lemma LowerIsShort(c: char)
    ensures |Lower([c])| == 1 || Lower([c]) == ['i', '\U{0307}']
  {
    assert [c][1..] == "";
  }

  lemma ContainsAfter(first: string, rest: string, word: string)
    requires IsWord(word) && (|first| == 1 || first == ['i', '\U{0307}'])
    ensures Contains(first + rest, word) <==> word <= first + rest || Contains(rest, word)
  {
    if |first| == 1 {
      assert first == [first[0]];
      ContainsFurther(first[0], rest, word);
    } else {
      var dot := '\U{0307}';
      assert first + rest == ['i'] + ([dot] + rest) && ([dot] + rest)[0] == dot;
      ContainsFurther('i', [dot] + rest, word);
      ContainsFurther(dot, rest, word);
    }
  }

  /** From `i` on the word is spelled out somewhere. */
  ghost predicate IsFurtherOn(name: string, i: nat, word: string) {
    exists j: nat :: i <= j && IsSpelled(name, j, word)
  }

  lemma {:induction false} ContainedIsSpelled(name: string, i: nat, word: string)
    requires i <= |name| && IsWord(word)
    ensures Contains(Lower(name[i..]), word) <==> IsFurtherOn(name, i, word)
    decreases |name| - i
  {
    PrefixIsSpelled(name, i, word);
    if i < |name| {
      ContainedIsSpelled(name, i + 1, word);
      LowerFrom(name, i);
      LowerIsShort(name[i]);
      ContainsAfter(Lower([name[i]]), Lower(name[i + 1..]), word);
    }
  }

  lemma {:induction false} LowerAppend(a: string, b: string)
    ensures Lower(a + b) == Lower(a) + Lower(b)
  {
    if a == "" {
      assert a + b == b;
    } else {
      assert (a + b)[1..] == a[1..] + b;
      LowerAppend(a[1..], b);
    }
  }

  /** The suffix of a text that begins with `first` lies in the rest, or is the whole text. */
  lemma SuffixAfter(first: string, rest: string, word: string)
    requires IsPlain(word) && (|first| == 1 || first == ['i', '\U{0307}']) && EndsWith(first + rest, word)
    ensures EndsWith(rest, word) || first + rest == word
  {
    var all, from := first + rest, |first| + |rest| - |word|;
    assert all[from..] == word;
    assert |first| == 2 ==> all[1] == '\U{0307}';
    assert word != "" ==> word[0] == all[from];
    assert |word| > 1 ==> word[1] == all[from + 1];
    if from >= |first| {
      assert all[from..] == rest[from - |first|..];
    }
  }

  lemma {:induction false} EndIsSpelled(name: string, i: nat, word: string)
    requires i <= |name| && IsWord(word) && EndsWith(Lower(name[i..]), word)
    ensures |word| <= |name| && IsSpelled(name, |name| - |word|, word)
    decreases |name| - i
  {
    if i < |name| {
      var first, rest := Lower([name[i]]), Lower(name[i + 1..]);
      LowerFrom(name, i);
      LowerIsShort(name[i]);
      SuffixAfter(first, rest, word);
      if EndsWith(rest, word) {
        EndIsSpelled(name, i + 1, word);
      } else {
        PrefixIsSpelled(name, i, word);
        LowerIsNoShorter(name[i..]);
      }
    }
  }

  lemma WordsAreWords()
    ensures forall word :: word in SECRET_WORDS ==> IsWord(word)
    ensures forall word :: word in {"_key", "-key", ".key", "sig"} ==> IsWord(word)
  {
  }

  lemma KeysAreWords(kind: string, separator: string)
    requires kind in KINDS_OF_KEY && separator in SEPARATORS
    ensures IsWord(kind + separator + "key")
  {
    assert IsPlain(kind) && IsPlain(separator) && IsPlain("key");
    var word := kind + separator + "key";
    assert word[|word| - 1] == 'y';
  }

  lemma {:induction false} SpelledWhole(name: string, i: nat, word: string)
    requires i <= |name| && |name| - i == |word| && IsPlain(word) && IsSpelled(name, i, word)
    ensures Lower(name[i..]) == word
    decreases |word|
  {
    if word != "" {
      LowerFrom(name, i);
      LowerOne(name[i], word[0]);
      SpelledFurther(name, i, word);
      SpelledWhole(name, i + 1, word[1..]);
    }
  }

  lemma {:induction false} LowerIsNoShorter(s: string)
    ensures |Lower(s)| >= |s|
  {
    if s != "" {
      LowerIsNoShorter(s[1..]);
    }
  }

  lemma EndsInExactly(name: string, word: string)
    requires IsWord(word)
    ensures EndsWith(Lower(name), word) <==> EndsIn(name, word)
  {
    assert name[0..] == name;
    if EndsWith(Lower(name), word) {
      EndIsSpelled(name, 0, word);
    }
    if EndsIn(name, word) {
      var i := |name| - |word|;
      SpelledWhole(name, i, word);
      assert name == name[..i] + name[i..];
      LowerAppend(name[..i], name[i..]);
    }
  }

  lemma IsAnywhereExactly(name: string, word: string)
    requires IsWord(word)
    ensures Contains(Lower(name), word) <==> IsAnywhere(name, word)
  {
    assert name[0..] == name;
    ContainedIsSpelled(name, 0, word);
  }

  /** Nothing before or after `sig`. */
  lemma IsWholeExactly(name: string, word: string)
    requires IsWord(word)
    ensures Lower(name) == word <==> |name| == |word| && IsSpelled(name, 0, word)
  {
    assert name[0..] == name;
    if Lower(name) == word {
      LowerIsNoShorter(name);
      EndsInExactly(name, word);
    }
    if |name| == |word| && IsSpelled(name, 0, word) {
      SpelledWhole(name, 0, word);
    }
  }

  ghost predicate SpellsSecret(name: string) {
    exists word :: word in SECRET_WORDS && IsAnywhere(name, word)
  }

  ghost predicate SpellsKey(name: string) {
    exists kind, separator :: kind in KINDS_OF_KEY && separator in SEPARATORS
      && IsAnywhere(name, kind + separator + "key")
  }

  /**
   A key holds a credential exactly if it spells out one of the words, or an api, access or private key, or ends in a
   qualified `key`, or is `sig` - in whatever case.
   */
  lemma SensitiveExactly(name: string)
    ensures IsSensitiveKey(name) <==>
      || SpellsSecret(name) || SpellsKey(name)
      || EndsIn(name, "_key") || EndsIn(name, "-key") || EndsIn(name, ".key")
      || (|name| == 3 && IsSpelled(name, 0, "sig"))
  {
    WordsAreWords();
    forall word | word in SECRET_WORDS ensures Contains(Lower(name), word) <==> IsAnywhere(name, word) {
      IsAnywhereExactly(name, word);
    }
    forall kind | kind in KINDS_OF_KEY
      ensures ContainsKeyPhrase(Lower(name), kind) <==>
        exists separator :: separator in SEPARATORS && IsAnywhere(name, kind + separator + "key")
    {
      KeyIsSpelled(name, kind);
    }
    EndsInExactly(name, "_key");
    EndsInExactly(name, "-key");
    EndsInExactly(name, ".key");
    IsWholeExactly(name, "sig");
  }

  lemma KeyIsSpelled(name: string, kind: string)
    requires kind in KINDS_OF_KEY
    ensures ContainsKeyPhrase(Lower(name), kind) <==>
      exists separator :: separator in SEPARATORS && IsAnywhere(name, kind + separator + "key")
  {
    forall separator | separator in SEPARATORS
      ensures Contains(Lower(name), kind + separator + "key") <==> IsAnywhere(name, kind + separator + "key")
    {
      KeysAreWords(kind, separator);
      IsAnywhereExactly(name, kind + separator + "key");
    }
    assert kind + "" + "key" == kind + "key" && kind + "_" + "key" == kind + "_key";
    assert kind + "." + "key" == kind + ".key" && kind + "-" + "key" == kind + "-key";
    assert "" in SEPARATORS && "_" in SEPARATORS && "." in SEPARATORS && "-" in SEPARATORS;
  }

  predicate IsTelltale(w: char) {
    w in {'p', 't', 'd', 'g', 'k'}
  }

  lemma WordsTell(word: string)
    requires word in SECRET_WORDS
    ensures exists x :: 0 <= x < |word| && IsTelltale(word[x])
  {
    assert IsTelltale(word[0]) || IsTelltale(word[2]) || IsTelltale(word[3]) || IsTelltale(word[5]);
  }

  ghost predicate HasNoTelltale(name: string) {
    forall x, w :: 0 <= x < |name| && IsTelltale(w) ==> !IsCaseOf(name[x], w)
  }

  lemma NotSpelled(name: string, word: string, x: nat)
    requires HasNoTelltale(name) && x < |word| && IsTelltale(word[x])
    ensures forall i: nat :: !IsSpelled(name, i, word)
  {
    forall i: nat ensures !IsSpelled(name, i, word) {
      assert i + x < |name| ==> !IsCaseOf(name[i + x], word[x]);
    }
  }

  /** A name without any of five letters is no credential, such as `sha256` or `archive_sha256`. */
  lemma HarmlessKeys(name: string)
    requires HasNoTelltale(name)
    ensures !IsSensitiveKey(name)
  {
    SensitiveExactly(name);
    forall word | word in SECRET_WORDS ensures !IsAnywhere(name, word) {
      WordsTell(word);
      var x :| 0 <= x < |word| && IsTelltale(word[x]);
      NotSpelled(name, word, x);
    }
    forall kind, separator | kind in KINDS_OF_KEY && separator in SEPARATORS
      ensures !IsAnywhere(name, kind + separator + "key")
    {
      var x := |kind| + |separator|;
      assert (kind + separator + "key")[x] == 'k';
      NotSpelled(name, kind + separator + "key", x);
    }
    NotSpelled(name, "_key", 1);
    NotSpelled(name, "-key", 1);
    NotSpelled(name, ".key", 1);
    NotSpelled(name, "sig", 2);
  }

  /** Nor is a bare `key`, in whatever case: no name of less than five letters but `sig` and a qualified `key` is. */
  lemma ShortKeys(name: string)
    requires |name| < 5
    ensures IsSensitiveKey(name) <==>
      EndsIn(name, "_key") || EndsIn(name, "-key") || EndsIn(name, ".key") || (|name| == 3 && IsSpelled(name, 0, "sig"))
  {
    SensitiveExactly(name);
    forall word | word in SECRET_WORDS ensures !IsAnywhere(name, word) {
      assert |word| >= 5;
    }
    forall kind, separator | kind in KINDS_OF_KEY && separator in SEPARATORS
      ensures !IsAnywhere(name, kind + separator + "key")
    {
      assert |kind + separator + "key"| >= 5;
    }
  }
}
