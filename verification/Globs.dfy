/** Shell-style patterns as `fnmatch` reads them: `*` and `?` match any character, a slash too. */
module Globs {
  import opened Wrappers

  /** A bracket expression is kept as the text between its brackets. */
  datatype Token = Literal(c: char) | Any | Star | Bracket(content: string)

  /** Which characters the text between two brackets stands for. */
  type Charset = (string, char) -> bool

  function Find(s: string, c: char, from: nat): (r: Option<nat>)
    requires from <= |s|
    ensures r.Some? ==> from <= r.value < |s| && s[r.value] == c
    ensures forall x :: from <= x < |s| && (r.None? || x < r.value) ==> s[x] != c
    decreases |s| - from
  {
    if from == |s| then None
    else if s[from] == c then Some(from)
    else Find(s, c, from + 1)
  }

  /** Where the content of a bracket may end at the earliest: a leading `!`, and a `]` right after it, belong to it. */
  function ContentFrom(p: string): (r: nat)
    requires p != ""
    ensures 1 <= r <= |p|
  {
    var j := if 1 < |p| && p[1] == '!' then 2 else 1;
    if j < |p| && p[j] == ']' then j + 1 else j
  }

  function ClosingBracket(p: string): (r: Option<nat>)
    requires p != ""
    ensures r.Some? ==> 1 <= r.value < |p|
  {
    Find(p, ']', ContentFrom(p))
  }

  /** A `[` without its closing bracket stands for itself. */
  function Parse(p: string): seq<Token>
    decreases |p|
  {
    if p == "" then []
    else if p[0] == '*' then [Star] + Parse(p[1..])
    else if p[0] == '?' then [Any] + Parse(p[1..])
    else if p[0] == '[' && ClosingBracket(p).Some? then
      var j := ClosingBracket(p).value;
      [Bracket(p[1..j])] + Parse(p[j + 1..])
    else [Literal(p[0])] + Parse(p[1..])
  }

  predicate MatchesOne(token: Token, c: char, charset: Charset)
    requires !token.Star?
  {
    match token
    case Literal(d) => c == d
    case Any => true
    case Bracket(content) => charset(content, c)
  }

  predicate Matches(tokens: seq<Token>, s: string, charset: Charset)
    decreases |tokens|, |s|
  {
    if tokens == [] then s == ""
    else if tokens[0].Star? then
      Matches(tokens[1..], s, charset) || (s != "" && Matches(tokens, s[1..], charset))
    else s != "" && MatchesOne(tokens[0], s[0], charset) && Matches(tokens[1..], s[1..], charset)
  }

  /** `fnmatch.fnmatch(name, pattern)` where case matters. */
  predicate Fnmatch(name: string, pattern: string, charset: Charset) {
    Matches(Parse(pattern), name, charset)
  }

  // ---- A pattern that is a name with a star ----

  /** A name without wildcards, with a star appended, matches just what starts with it. */
  lemma {:induction false} NameStarIsPrefix(name: string, p: string, charset: Charset)
    requires forall i :: 0 <= i < |p| ==> p[i] !in "*?["
    ensures Fnmatch(name, p + "*", charset) <==> p <= name
    decreases |p|
  {
    var q := p + "*";
    if p == "" {
      assert q == "*" && q[1..] == "" && Parse(q) == [Star] + Parse("") == [Star];
      StarMatchesAll(name, charset);
    } else {
      assert q[0] == p[0] && q[1..] == p[1..] + "*";
      assert Parse(q) == [Literal(p[0])] + Parse(q[1..]);
      assert Parse(q)[1..] == Parse(q[1..]);
      if name != "" {
        NameStarIsPrefix(name[1..], p[1..], charset);
        assert p <= name <==> p[0] == name[0] && p[1..] <= name[1..] by {
          if p[0] == name[0] && p[1..] <= name[1..] {
            assert name == [name[0]] + name[1..] && p == [p[0]] + p[1..];
          }
        }
      }
    }
  }

  // ---- What a pattern matches ----

  /** Character by character, a question mark standing for any. */
  predicate IsLike(name: string, p: string) {
    |name| == |p| && forall i :: 0 <= i < |p| ==> p[i] == '?' || name[i] == p[i]
  }

  /** Neither a star nor a bracket. */
  ghost predicate IsSimple(p: string) {
    forall i :: 0 <= i < |p| ==> p[i] != '*' && p[i] != '['
  }

  /** One character of the pattern for one of the name. */
  lemma OneEach(name: string, c: char, p: string, charset: Charset)
    requires c != '*' && (c == '[' ==> ClosingBracket([c] + p).None?)
    ensures Fnmatch(name, [c] + p, charset) <==>
      name != "" && (c == '?' || name[0] == c) && Fnmatch(name[1..], p, charset)
  {
    var q := [c] + p;
    assert q[0] == c && q[1..] == p;
    assert Parse(q)[0] == (if c == '?' then Any else Literal(c)) && Parse(q)[1..] == Parse(p);
  }

  /** A star stands for any number of characters, slashes included. */
  lemma {:induction false} StarMatchesExactly(name: string, p: string, charset: Charset)
    ensures Fnmatch(name, "*" + p, charset) <==> exists i :: 0 <= i <= |name| && Fnmatch(name[i..], p, charset)
    decreases |name|
  {
    var q := "*" + p;
    assert q[0] == '*' && q[1..] == p;
    assert Parse(q)[0] == Star && Parse(q)[1..] == Parse(p);
    assert name[0..] == name;
    if name != "" {
      StarMatchesExactly(name[1..], p, charset);
      forall i | 0 < i <= |name| ensures name[i..] == name[1..][i - 1..] {
      }
    }
  }

  /** What may stand between two brackets: a `]` only in front, or after a `!` in front. */
  ghost predicate IsContent(s: string) {
    s != "" && s != "!" && forall i :: 0 <= i < |s| && s[i] == ']' ==> i == 0 || (i == 1 && s[0] == '!')
  }

  /** A bracket stands for one character, which the text in it says. */
  lemma BracketMatchesExactly(name: string, content: string, p: string, charset: Charset)
    requires IsContent(content)
    ensures Fnmatch(name, "[" + content + "]" + p, charset) <==>
      name != "" && charset(content, name[0]) && Fnmatch(name[1..], p, charset)
  {
    var q := "[" + content + "]" + p;
    assert forall i :: 0 <= i < |content| ==> q[i + 1] == content[i];
    var j := |content| + 1;
    assert q[0] == '[' && q[j] == ']' && q[1..j] == content && q[j + 1..] == p;
    ContentClosed(q, content);
    assert Parse(q)[0] == Bracket(content) && Parse(q)[1..] == Parse(p);
  }

  lemma ContentClosed(q: string, content: string)
    requires IsContent(content) && |q| > |content| + 1 && q[|content| + 1] == ']'
    requires forall i :: 0 <= i < |content| ==> q[i + 1] == content[i]
    ensures ClosingBracket(q) == Some(|content| + 1)
  {
    assert q[1] == content[0] && (|content| > 1 ==> q[2] == content[1]);
    forall x | ContentFrom(q) <= x <= |content| ensures q[x] != ']' {
      assert q[x] == content[x - 1];
    }
  }

  /** Without a star and brackets, a name matches exactly if it has the same length and the same characters. */
  lemma {:induction false} SimpleMatchesExactly(name: string, p: string, charset: Charset)
    requires IsSimple(p)
    ensures Fnmatch(name, p, charset) <==> IsLike(name, p)
    decreases |p|
  {
    if p != "" {
      assert p == [p[0]] + p[1..];
      OneEach(name, p[0], p[1..], charset);
      if name != "" {
        SimpleMatchesExactly(name[1..], p[1..], charset);
        LikeFurther(name, p);
      }
    }
  }

  lemma LikeFurther(name: string, p: string)
    requires name != "" && p != ""
    ensures IsLike(name, p) <==> (p[0] == '?' || name[0] == p[0]) && IsLike(name[1..], p[1..])
  {
    if (p[0] == '?' || name[0] == p[0]) && IsLike(name[1..], p[1..]) {
      forall i | 0 <= i < |p| ensures p[i] == '?' || name[i] == p[i] {
        assert i > 0 ==> p[i] == p[1..][i - 1] && name[i] == name[1..][i - 1];
      }
    }
  }

  /** With one star, exactly if the name begins like what stands before it and ends like what stands after it. */
  lemma {:induction false} OneStarMatchesExactly(name: string, a: string, b: string, charset: Charset)
    requires IsSimple(a) && IsSimple(b)
    ensures Fnmatch(name, a + "*" + b, charset) <==>
      |name| >= |a| + |b| && IsLike(name[..|a|], a) && IsLike(name[|name| - |b|..], b)
    decreases |a|
  {
    if a == "" {
      assert a + "*" + b == "*" + b;
      StarThenSimple(name, b, charset);
    } else {
      assert a + "*" + b == [a[0]] + (a[1..] + "*" + b);
      OneEach(name, a[0], a[1..] + "*" + b, charset);
      if name != "" {
        OneStarMatchesExactly(name[1..], a[1..], b, charset);
        if |name| >= |a| + |b| {
          LikeFurther(name[..|a|], a);
          assert name[..|a|][1..] == name[1..][..|a| - 1];
          assert name[|name| - |b|..] == name[1..][|name| - 1 - |b|..];
        }
      }
    }
  }

  lemma StarThenSimple(name: string, b: string, charset: Charset)
    requires IsSimple(b)
    ensures Fnmatch(name, "*" + b, charset) <==> |name| >= |b| && IsLike(name[|name| - |b|..], b)
  {
    StarMatchesExactly(name, b, charset);
    forall i | 0 <= i <= |name| ensures Fnmatch(name[i..], b, charset) <==> IsLike(name[i..], b) {
      SimpleMatchesExactly(name[i..], b, charset);
    }
    assert |name| >= |b| ==> 0 <= |name| - |b| <= |name|;
  }

  // ---- A match of `P` extends to `P/*` ----

  const SLASH_STAR := "/*"
  const BELOW := [Literal('/'), Star]

  /** What is appended closes no bracket that was open. */
  lemma ClosingBracketAppend(p: string)
    requires p != ""
    ensures ClosingBracket(p + SLASH_STAR) == ClosingBracket(p)
  {
    var q := p + SLASH_STAR;
    assert q[|p|] == '/' && q[|p| + 1] == '*';
    assert ContentFrom(q) == ContentFrom(p);
    var closing, closing' := ClosingBracket(p), ClosingBracket(q);
    assert closing.Some? ==> q[closing.value] == ']';
    assert closing'.Some? ==> closing'.value < |p| && p[closing'.value] == ']';
  }

  lemma {:induction false} ParseAppend(p: string)
    ensures Parse(p + SLASH_STAR) == Parse(p) + BELOW
    decreases |p|
  {
    var q := p + SLASH_STAR;
    if p == "" {
      assert q == SLASH_STAR && q[1..] == "*" && q[1..][1..] == "";
      assert Parse("*") == [Star] + Parse("");
      assert Parse("/*") == [Literal('/')] + Parse("*");
    } else {
      assert q[0] == p[0] && q[1..] == p[1..] + SLASH_STAR;
      ClosingBracketAppend(p);
      ParseAppend(p[1..]);
      if ClosingBracket(p).Some? {
        var j := ClosingBracket(p).value;
        assert q[1..j] == p[1..j] && q[j + 1..] == p[j + 1..] + SLASH_STAR;
        ParseAppend(p[j + 1..]);
      }
    }
  }

  lemma {:induction false} StarMatchesAll(s: string, charset: Charset)
    ensures Matches([Star], s, charset)
  {
    if s != "" {
      StarMatchesAll(s[1..], charset);
    }
  }

  lemma {:induction false} MatchesAppend(a: seq<Token>, s: string, b: seq<Token>, t: string, charset: Charset)
    requires Matches(a, s, charset) && Matches(b, t, charset)
    ensures Matches(a + b, s + t, charset)
    decreases |a|, |s|
  {
    if a == [] {
      assert a + b == b && s + t == t;
    } else {
      assert (a + b)[0] == a[0] && (a + b)[1..] == a[1..] + b;
      if a[0].Star? && Matches(a[1..], s, charset) {
        MatchesAppend(a[1..], s, b, t, charset);
      } else {
        assert (s + t)[0] == s[0] && (s + t)[1..] == s[1..] + t;
        MatchesAppend(if a[0].Star? then a else a[1..], s[1..], b, t, charset);
      }
    }
  }

  // Whatever lies below a directory that matches `P` matches `P/*`.
  lemma MatchExtends(name: string, pattern: string, rest: string, charset: Charset)
    requires Fnmatch(name, pattern, charset)
    ensures Fnmatch(name + "/" + rest, pattern + SLASH_STAR, charset)
  {
    ParseAppend(pattern);
    StarMatchesAll(rest, charset);
    assert ("/" + rest)[1..] == rest && BELOW[1..] == [Star];
    assert Matches(BELOW, "/" + rest, charset);
    MatchesAppend(Parse(pattern), name, BELOW, "/" + rest, charset);
    assert name + "/" + rest == name + ("/" + rest);
  }
}
