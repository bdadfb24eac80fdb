/** The operations of Go's `strings` package that the server uses, on strings as sequences of characters. */
module GoStrings {

  predicate HasPrefix(s: string, prefix: string) {
    prefix <= s
  }

  predicate HasSuffix(s: string, suffix: string) {
    |suffix| <= |s| && s[|s| - |suffix|..] == suffix
  }

  function TrimSuffix(s: string, suffix: string): string {
    if HasSuffix(s, suffix) then s[..|s| - |suffix|] else s
  }

  /** Position of the first occurrence of `sub`, or -1. */
  function Index(s: string, sub: string): (i: int)
    ensures i == -1 || (0 <= i <= |s| && HasPrefix(s[i..], sub))
  {
    if HasPrefix(s, sub) then 0
    else if s == [] then -1
    else
      var i := Index(s[1..], sub);
      if i < 0 then -1 else i + 1
  }

  predicate Contains(s: string, sub: string) {
    Index(s, sub) >= 0
  }

  /** `strings.Replace(s, old, new, 1)`. */
  function ReplaceFirst(s: string, sub: string, with: string): string {
    var i := Index(s, sub);
    if i < 0 then s else s[..i] + with + s[i + |sub|..]
  }

  /** `strings.ReplaceAll(s, old, new)` for a non-empty `old`: leftmost matches that do not overlap. */
  function ReplaceAll(s: string, sub: string, with: string): string
    requires sub != []
  {
    if s == [] then []
    else if HasPrefix(s, sub) then with + ReplaceAll(s[|sub|..], sub, with)
    else [s[0]] + ReplaceAll(s[1..], sub, with)
  }

  /** `strings.Count(s, string(c))`. */
  function Count(s: string, c: char): nat {
    if s == [] then 0 else (if s[0] == c then 1 else 0) + Count(s[1..], c)
  }

  /** An occurrence at `k` bounds the first occurrence from above. */
  lemma {:induction false} IndexIsFirst(s: string, sub: string, k: nat)
    requires k <= |s| && HasPrefix(s[k..], sub)
    ensures 0 <= Index(s, sub) <= k
  {
    if !HasPrefix(s, sub) {
      assert k > 0 by { assert s[0..] == s; }
      assert s[1..][k - 1..] == s[k..];
      IndexIsFirst(s[1..], sub, k - 1);
    }
  }

  /** Text that cannot start a match is skipped, so the match right behind it is the first one. */
  lemma IndexAfter(pre: string, sub: string, post: string)
    requires sub != [] && sub[0] !in pre
    ensures Index(pre + sub + post, sub) == |pre|
  {
    var s := pre + sub + post;
    assert s[|pre|..] == sub + post;
    IndexIsFirst(s, sub, |pre|);
    var i := Index(s, sub);
    assert s[i..][0] == s[i];
    assert forall k :: 0 <= k < |pre| ==> s[k] == pre[k] && pre[k] != sub[0];
  }

  lemma ReplaceFirstAfter(pre: string, sub: string, post: string, with: string)
    requires sub != [] && sub[0] !in pre
    ensures ReplaceFirst(pre + sub + post, sub, with) == pre + with + post
  {
    IndexAfter(pre, sub, post);
    assert (pre + sub + post)[..|pre|] == pre;
    assert (pre + sub + post)[|pre| + |sub|..] == post;
  }

  lemma {:induction false} CountConcat(a: string, b: string, c: char)
    ensures Count(a + b, c) == Count(a, c) + Count(b, c)
  {
    if a == [] {
      assert a + b == b;
    } else {
      assert (a + b)[1..] == a[1..] + b;
      CountConcat(a[1..], b, c);
    }
  }

  lemma {:induction false} CountZero(s: string, c: char)
    ensures Count(s, c) == 0 <==> c !in s
  {
    if s != [] {
      CountZero(s[1..], c);
      assert s == [s[0]] + s[1..];
    }
  }

  /** A string splits in one way only at its first slash. */
  lemma SplitAtSlash(a: string, x: string, b: string, y: string)
    requires '/' !in a && '/' !in b
    requires a + "/" + x == b + "/" + y
    ensures a == b && x == y
  {
    var s := a + "/" + x;
    assert s[|a|] == '/' && s[|b|] == '/';
    assert forall i :: 0 <= i < |a| ==> s[i] == a[i] && a[i] != '/';
    assert forall i :: 0 <= i < |b| ==> s[i] == b[i] && b[i] != '/';
    assert s[..|a|] == a && s[..|a|] == b;
    assert s[|a| + 1..] == x && s[|a| + 1..] == y;
  }

  /** The same behind a common prefix. */
  lemma SplitAtSlashBehind(prefix: string, a: string, x: string, b: string, y: string)
    requires '/' !in a && '/' !in b
    requires prefix + a + "/" + x == prefix + b + "/" + y
    ensures a == b && x == y
  {
    var left, right := a + "/" + x, b + "/" + y;
    assert prefix + a + "/" + x == prefix + left && prefix + b + "/" + y == prefix + right;
    assert (prefix + left)[|prefix|..] == left && (prefix + right)[|prefix|..] == right;
    SplitAtSlash(a, x, b, y);
  }
}
