/** What the text-handling parts of the engine share. */
module Texts {

  predicate IsDigit(c: char) {
    '0' <= c <= '9'
  }

  /** The characters Python's `\s`, `str.strip` and `str.isspace` take for white space. */
  predicate IsSpace(c: char) {
    || '\U{0009}' <= c <= '\U{000D}' || '\U{001C}' <= c <= '\U{0020}' || c == '\U{0085}' || c == '\U{00A0}'
    || c == '\U{1680}' || '\U{2000}' <= c <= '\U{200A}' || c == '\U{2028}' || c == '\U{2029}'
    || c == '\U{202F}' || c == '\U{205F}' || c == '\U{3000}'
  }

  predicate StartsWith(s: string, prefix: string) {
    prefix <= s
  }

  predicate EndsWith(s: string, suffix: string) {
    |suffix| <= |s| && s[|s| - |suffix|..] == suffix
  }

  // ---- Letters and digits of ASCII ----

  const CAPITALS := "ABCDEFGHIJKLMNOPQRSTUVWXYZ"
  const LETTERS := "abcdefghijklmnopqrstuvwxyz"
  const DIGITS := "0123456789"

  lemma InARow(c: char, s: string, from: char, n: nat)
    requires n == |s| && from as int + n < 128 && forall i :: 0 <= i < n ==> s[i] == (from as int + i) as char
    ensures c in s <==> from as int <= c as int < from as int + n
  {
    if from as int <= c as int < from as int + n {
      assert s[c as int - from as int] == c;
    }
  }

  lemma AlphabetIs(c: char)
    ensures c in CAPITALS <==> 'A' <= c <= 'Z'
    ensures c in LETTERS <==> 'a' <= c <= 'z'
    ensures c in DIGITS <==> IsDigit(c)
  {
    InARow(c, CAPITALS, 'A', 26);
    InARow(c, LETTERS, 'a', 26);
    InARow(c, DIGITS, '0', 10);
  }
}
