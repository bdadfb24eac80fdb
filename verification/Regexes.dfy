/** The part of Go's `regexp` that topic patterns use: quoting, a parser for a fragment of the syntax, and what an expression matches. */
module Regexes {
  import opened Wrappers

  /** The characters that `regexp.QuoteMeta` escapes. */
  const SPECIAL := "\\.+*?()|[]{}^$"

  function Quote(c: char): string {
    if c in SPECIAL then ['\\', c] else [c]
  }

  function QuoteMeta(s: string): string {
    if s == [] then [] else Quote(s[0]) + QuoteMeta(s[1..])
  }

  datatype Regex =
    | Empty
    | Literal(c: char)
    | AnyNotNewline
    | EndText
    | Cat(first: Regex, second: Regex)
    | Star(body: Regex, lazy: bool)
    | Group(body: Regex)

  /** After a backslash, ASCII characters other than letters and digits stand for themselves. */
  predicate IsEscapable(c: char) {
    c < 128 as char && !('0' <= c <= '9') && !('A' <= c <= 'Z') && !('a' <= c <= 'z')
  }

  /** The characters that, unescaped, are operators outside the fragment or stand in the wrong place. */
  predicate IsOperator(c: char) {
    c == '*' || c == '+' || c == '?' || c == '|' || c == '[' || c == '{' || c == '^' || c == ')'
  }

  /** A sequence of atoms up to the end of the text or, in a group, up to the closing parenthesis. */
  function ParseSequence(s: string, inGroup: bool): (r: Option<(Regex, string)>)
    ensures r.Some? ==> |r.value.1| <= |s|
    decreases |s|, 1
  {
    if s == [] then if inGroup then None else Some((Empty, []))
    else if s[0] == ')' then if inGroup then Some((Empty, s)) else None
    else
      match ParseAtom(s)
      case None => None
      case Some((atom, rest)) =>
        var (item, behind) := ParseRepeat(atom, rest);
        match ParseSequence(behind, inGroup)
        case None => None
        case Some((items, end)) => Some((Cat(item, items), end))
  }

  function ParseRepeat(atom: Regex, s: string): (r: (Regex, string))
    ensures |r.1| <= |s|
  {
    if s != [] && s[0] == '*' then
      if |s| > 1 && s[1] == '?' then (Star(atom, true), s[2..]) else (Star(atom, false), s[1..])
    else (atom, s)
  }

  /** One atom. Syntax outside the fragment, as well as what Go rejects, is not parsed. */
  function ParseAtom(s: string): (r: Option<(Regex, string)>)
    requires s != []
    ensures r.Some? ==> |r.value.1| < |s|
    decreases |s|, 0
  {
    if s[0] == '\\' then
      if |s| > 1 && IsEscapable(s[1]) then Some((Literal(s[1]), s[2..])) else None
    else if s[0] == '.' then Some((AnyNotNewline, s[1..]))
    else if s[0] == '$' then Some((EndText, s[1..]))
    else if s[0] == '(' then
      if |s| > 1 && s[1] == '?' then None
      else
        match ParseSequence(s[1..], true)
        case None => None
        case Some((body, rest)) => if rest != [] && rest[0] == ')' then Some((Group(body), rest[1..])) else None
    else if IsOperator(s[0]) then None
    else Some((Literal(s[0]), s[1..]))
  }

  /** `regexp.Compile` */
  function Parse(s: string): Option<Regex> {
    match ParseSequence(s, false)
    case None => None
    case Some((r, rest)) => Some(r)
  }

  /** Whether `r` matches the text from `i` up to `j`. */
  predicate Matches(r: Regex, s: string, i: nat, j: nat)
    requires i <= j <= |s|
    decreases r, j - i
  {
    match r
    case Empty => i == j
    case Literal(c) => j == i + 1 && s[i] == c
    case AnyNotNewline => j == i + 1 && s[i] != '\n'
    case EndText => i == j == |s|
    case Cat(a, b) => exists k :: i <= k <= j && Matches(a, s, i, k) && Matches(b, s, k, j)
    case Star(a, _) => i == j || exists k :: i < k <= j && Matches(a, s, i, k) && Matches(r, s, k, j)
    case Group(a) => Matches(a, s, i, j)
  }

  /** `MatchString`: somewhere in the text. */
  predicate MatchString(r: Regex, s: string) {
    exists i, j :: 0 <= i <= j <= |s| && Matches(r, s, i, j)
  }

  // Facts.

  lemma QuotedHead(s: string)
    ensures QuoteMeta(s) == [] <==> s == []
    ensures s != [] ==> QuoteMeta(s)[0] != '*' && QuoteMeta(s)[0] != '?'
  {}

  lemma CatSplits(a: Regex, b: Regex, s: string, i: nat, j: nat) returns (k: nat)
    requires i <= j <= |s| && Matches(Cat(a, b), s, i, j)
    ensures i <= k <= j && Matches(a, s, i, k) && Matches(b, s, k, j)
  {
    k :| i <= k <= j && Matches(a, s, i, k) && Matches(b, s, k, j);
  }

  lemma CatJoins(a: Regex, b: Regex, s: string, i: nat, k: nat, j: nat)
    requires i <= k <= j <= |s| && Matches(a, s, i, k) && Matches(b, s, k, j)
    ensures Matches(Cat(a, b), s, i, j)
  {}

  /** A star of any character but newline matches exactly the stretches without one. */
  lemma {:induction false} AnyStar(lazy: bool, s: string, i: nat, j: nat)
    requires i <= j <= |s|
    ensures Matches(Star(AnyNotNewline, lazy), s, i, j) <==> '\n' !in s[i..j]
    decreases j - i
  {
    if i < j {
      AnyStar(lazy, s, i + 1, j);
      assert s[i..j] == [s[i]] + s[i + 1..j];
      if '\n' !in s[i..j] {
        assert s[i] in s[i..j];
        assert Matches(AnyNotNewline, s, i, i + 1);
      }
    }
  }
}
