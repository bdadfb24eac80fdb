/** Topic patterns with `*`: their compilation to regular expressions and what they match (pkg/broker/broker_hook.go). */
module Wildcard {
  import opened Wrappers
  import opened GoStrings
  import opened Regexes

  const ESCAPED_STAR := "\\*"
  const ANY_TEXT := "(.*?)"

  /** The text that is compiled for a pattern. */
  function CompiledText(pattern: string): string {
    ReplaceAll(QuoteMeta(pattern), ESCAPED_STAR, ANY_TEXT) + "$"
  }

  function CompileTopicAsRegex(pattern: string): Option<Regex> {
    Parse(CompiledText(pattern))
  }

  // The text, character by character of the pattern.

  function Unit(c: char): string {
    if c == '*' then ANY_TEXT else Quote(c)
  }

  function Units(pattern: string): string {
    if pattern == [] then [] else Unit(pattern[0]) + Units(pattern[1..])
  }

  /** A character that starts no escaped star is copied. */
  lemma ReplaceAllCopies(c: char, rest: string)
    requires c == '\\' ==> rest == [] || rest[0] != '*'
    ensures ReplaceAll([c] + rest, ESCAPED_STAR, ANY_TEXT) == [c] + ReplaceAll(rest, ESCAPED_STAR, ANY_TEXT)
  {}

  lemma ReplaceAllReplaces(rest: string)
    ensures ReplaceAll(ESCAPED_STAR + rest, ESCAPED_STAR, ANY_TEXT) == ANY_TEXT + ReplaceAll(rest, ESCAPED_STAR, ANY_TEXT)
  {}

  /** So is the quoted form of any character but the star. */
  lemma ReplaceAllCopiesQuoted(c: char, rest: string)
    requires c != '*' && (rest == [] || rest[0] != '*')
    ensures ReplaceAll(Quote(c) + rest, ESCAPED_STAR, ANY_TEXT) == Quote(c) + ReplaceAll(rest, ESCAPED_STAR, ANY_TEXT)
  {
    if c in SPECIAL {
      ReplaceAllCopiesEscaped(c, rest);
    } else {
      ReplaceAllCopies(c, rest);
    }
  }

  lemma ReplaceAllCopiesEscaped(c: char, rest: string)
    requires c != '*' && (rest == [] || rest[0] != '*')
    ensures ReplaceAll(['\\', c] + rest, ESCAPED_STAR, ANY_TEXT) == ['\\', c] + ReplaceAll(rest, ESCAPED_STAR, ANY_TEXT)
  {
    assert ['\\', c] + rest == ['\\'] + ([c] + rest);
    ReplaceAllCopies('\\', [c] + rest);
    ReplaceAllCopies(c, rest);
    var tail := ReplaceAll(rest, ESCAPED_STAR, ANY_TEXT);
    assert ['\\'] + ([c] + tail) == ['\\', c] + tail;
  }

  /** The textual replacement hits exactly the quoted stars: no backslash of another character merges with it. */
  lemma {:induction false} ReplacedTextIsUnits(pattern: string)
    ensures ReplaceAll(QuoteMeta(pattern), ESCAPED_STAR, ANY_TEXT) == Units(pattern)
  {
    if pattern != [] {
      var c, rest := pattern[0], QuoteMeta(pattern[1..]);
      ReplacedTextIsUnits(pattern[1..]);
      QuotedHead(pattern[1..]);
      if c == '*' {
        ReplaceAllReplaces(rest);
      } else {
        ReplaceAllCopiesQuoted(c, rest);
      }
    }
  }

  // The syntax tree.

  const ANY_TREE := Group(Cat(Star(AnyNotNewline, true), Empty))

  function UnitTree(c: char): Regex {
    if c == '*' then ANY_TREE else Literal(c)
  }

  /** Literals for the characters other than `*`, a non-newline star for each `*`, and one end marker. */
  function Tree(pattern: string): Regex {
    if pattern == [] then Cat(EndText, Empty) else Cat(UnitTree(pattern[0]), Tree(pattern[1..]))
  }

  /** What stands behind a unit: no repetition operator and no closing parenthesis. */
  predicate Opens(s: string) {
    s != [] && s[0] != '*' && s[0] != ')'
  }

  lemma UnitsOpen(pattern: string)
    ensures Opens(Units(pattern) + "$")
  {}

  lemma ParseAnyText(rest: string)
    ensures ParseAtom(ANY_TEXT + rest) == Some((ANY_TREE, rest))
  {
    var s := ANY_TEXT + rest;
    var inner := ".*?)" + rest;
    assert s[1..] == inner;
    assert inner[1..] == "*?)" + rest;
    assert ("*?)" + rest)[2..] == ")" + rest;
    assert ParseRepeat(AnyNotNewline, "*?)" + rest) == (Star(AnyNotNewline, true), ")" + rest);
    assert ParseSequence(")" + rest, true) == Some((Empty, ")" + rest));
    assert ParseSequence(inner, true) == Some((Cat(Star(AnyNotNewline, true), Empty), ")" + rest));
    assert (")" + rest)[1..] == rest;
  }

  lemma ParseUnit(c: char, rest: string)
    ensures ParseAtom(Unit(c) + rest) == Some((UnitTree(c), rest))
    ensures Opens(Unit(c) + rest)
  {
    if c == '*' {
      ParseAnyText(rest);
    } else if c in SPECIAL {
      assert (Quote(c) + rest)[2..] == rest;
    } else {
      assert (Quote(c) + rest)[1..] == rest;
    }
  }

  lemma {:induction false} ParseUnits(pattern: string)
    ensures ParseSequence(Units(pattern) + "$", false) == Some((Tree(pattern), []))
  {
    if pattern == [] {
      assert Units(pattern) + "$" == "$";
      assert "$"[1..] == [];
      assert ParseSequence([], false) == Some((Empty, []));
    } else {
      var c, rest := pattern[0], Units(pattern[1..]) + "$";
      assert Units(pattern) + "$" == Unit(c) + rest;
      ParseUnit(c, rest);
      UnitsOpen(pattern[1..]);
      ParseUnits(pattern[1..]);
    }
  }

  /** Every pattern compiles, and to exactly its tree. */
  lemma CompilerIsCorrect(pattern: string)
    ensures CompileTopicAsRegex(pattern) == Some(Tree(pattern))
  {
    ReplacedTextIsUnits(pattern);
    ParseUnits(pattern);
  }

  // The meaning.

  /** The glob language of a pattern: `*` stands for any text without a newline, everything else for itself. */
  predicate Glob(pattern: string, text: string)
    decreases |pattern|
  {
    if pattern == [] then text == []
    else if pattern[0] == '*' then exists k :: 0 <= k <= |text| && '\n' !in text[..k] && Glob(pattern[1..], text[k..])
    else text != [] && text[0] == pattern[0] && Glob(pattern[1..], text[1..])
  }

  lemma GroupMatches(s: string, i: nat, j: nat)
    requires i <= j <= |s|
    ensures Matches(ANY_TREE, s, i, j) <==> '\n' !in s[i..j]
  {
    var star := Star(AnyNotNewline, true);
    AnyStar(true, s, i, j);
    if Matches(star, s, i, j) {
      CatJoins(star, Empty, s, i, j, j);
    }
    if Matches(Cat(star, Empty), s, i, j) {
      var k := CatSplits(star, Empty, s, i, j);
    }
  }

  lemma {:induction false} TreeMatchesGlob(pattern: string, s: string, i: nat, j: nat)
    requires i <= j <= |s|
    ensures Matches(Tree(pattern), s, i, j) <==> j == |s| && Glob(pattern, s[i..])
    decreases |pattern|
  {
    if pattern == [] {
      if Matches(Cat(EndText, Empty), s, i, j) {
        var k := CatSplits(EndText, Empty, s, i, j);
      }
      if i == j == |s| {
        CatJoins(EndText, Empty, s, i, i, j);
      }
    } else if pattern[0] == '*' {
      StarMatchesGlob(pattern, s, i, j);
    } else {
      LiteralMatchesGlob(pattern, s, i, j);
    }
  }

  lemma {:induction false} StarMatchesGlob(pattern: string, s: string, i: nat, j: nat)
    requires i <= j <= |s| && pattern != [] && pattern[0] == '*'
    ensures Matches(Tree(pattern), s, i, j) <==> j == |s| && Glob(pattern, s[i..])
    decreases |pattern|, 0
  {
    var rest := Tree(pattern[1..]);
    if Matches(Tree(pattern), s, i, j) {
      var k := CatSplits(ANY_TREE, rest, s, i, j);
      GroupMatches(s, i, k);
      TreeMatchesGlob(pattern[1..], s, k, j);
      GlobJoinsAt(pattern, s, i, k);
    } else if j == |s| && Glob(pattern, s[i..]) {
      var k := GlobSplitsAt(pattern, s, i);
      GroupMatches(s, i, k);
      TreeMatchesGlob(pattern[1..], s, k, j);
      CatJoins(ANY_TREE, rest, s, i, k, j);
    }
  }

  lemma GlobSplitsAt(pattern: string, s: string, i: nat) returns (k: nat)
    requires pattern != [] && pattern[0] == '*' && i <= |s| && Glob(pattern, s[i..])
    ensures i <= k <= |s| && '\n' !in s[i..k] && Glob(pattern[1..], s[k..])
  {
    var n := GlobSplits(pattern, s[i..]);
    k := i + n;
    assert s[i..][..n] == s[i..k] && s[i..][n..] == s[k..];
  }

  lemma GlobJoinsAt(pattern: string, s: string, i: nat, k: nat)
    requires pattern != [] && pattern[0] == '*' && i <= k <= |s|
    requires '\n' !in s[i..k] && Glob(pattern[1..], s[k..])
    ensures Glob(pattern, s[i..])
  {
    assert s[i..][..k - i] == s[i..k] && s[i..][k - i..] == s[k..];
    GlobJoins(pattern, s[i..], k - i);
  }

  lemma GlobSplits(pattern: string, text: string) returns (n: nat)
    requires pattern != [] && pattern[0] == '*' && Glob(pattern, text)
    ensures n <= |text| && '\n' !in text[..n] && Glob(pattern[1..], text[n..])
  {
    n :| 0 <= n <= |text| && '\n' !in text[..n] && Glob(pattern[1..], text[n..]);
  }

  lemma GlobJoins(pattern: string, text: string, n: nat)
    requires pattern != [] && pattern[0] == '*'
    requires n <= |text| && '\n' !in text[..n] && Glob(pattern[1..], text[n..])
    ensures Glob(pattern, text)
  {}

  lemma {:induction false} LiteralMatchesGlob(pattern: string, s: string, i: nat, j: nat)
    requires i <= j <= |s| && pattern != [] && pattern[0] != '*'
    ensures Matches(Tree(pattern), s, i, j) <==> j == |s| && Glob(pattern, s[i..])
    decreases |pattern|, 0
  {
    var c, rest := pattern[0], Tree(pattern[1..]);
    if Matches(Cat(Literal(c), rest), s, i, j) {
      var k := CatSplits(Literal(c), rest, s, i, j);
      TreeMatchesGlob(pattern[1..], s, k, j);
      assert s[i..][1..] == s[k..];
    }
    if j == |s| && Glob(pattern, s[i..]) {
      assert s[i..][0] == s[i] && s[i..][1..] == s[i + 1..];
      TreeMatchesGlob(pattern[1..], s, i + 1, j);
      CatJoins(Literal(c), rest, s, i, i + 1, j);
    }
  }

  /** Some suffix of the text is in the glob language. */
  ghost predicate MatchesSuffix(pattern: string, text: string) {
    exists i :: 0 <= i <= |text| && Glob(pattern, text[i..])
  }

  /** A compiled pattern has an end marker but no start marker. */
  lemma PatternMeaning(pattern: string, text: string)
    ensures MatchString(Tree(pattern), text) <==> MatchesSuffix(pattern, text)
  {
    forall i: nat, j: nat | i <= j <= |text|
      ensures Matches(Tree(pattern), text, i, j) <==> j == |text| && Glob(pattern, text[i..])
    {
      TreeMatchesGlob(pattern, text, i, j);
    }
    if MatchesSuffix(pattern, text) {
      var i :| 0 <= i <= |text| && Glob(pattern, text[i..]);
      assert Matches(Tree(pattern), text, i, |text|);
    }
  }
}
