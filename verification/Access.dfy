/** Who may read which topic (pkg/broker/broker_hook.go, components/mqtt/params.go). */
module Access {
  import opened Wrappers
  import Hex
  import opened GoStrings
  import opened Regexes
  import opened Wildcard

  // Lower case.

  /** `unicode.ToLower` on characters beyond ASCII; it never yields an ASCII upper-case letter, nor a newline. */
  ghost predicate IsLowering(table: char -> char) {
    forall c :: !('A' <= table(c) <= 'Z') && (c != '\n' ==> table(c) != '\n')
  }

  function LowerRune(table: char -> char, c: char): char {
    if c < 128 as char then Hex.LowerChar(c) else table(c)
  }

  function ToLower(table: char -> char, s: string): (r: string)
    ensures |r| == |s| && forall i :: 0 <= i < |s| ==> r[i] == LowerRune(table, s[i])
  {
    seq(|s|, i requires 0 <= i < |s| => LowerRune(table, s[i]))
  }

  // Pattern lists.

  /** The topic is matched by one of the patterns: some suffix of its lower-case form is in the pattern's language. */
  ghost predicate MatchesAny(table: char -> char, patterns: seq<string>, topic: string) {
    exists k :: 0 <= k < |patterns| && MatchesSuffix(patterns[k], ToLower(table, topic))
  }

  function Trees(patterns: seq<string>): (trees: seq<Regex>)
    ensures |trees| == |patterns| && forall i :: 0 <= i < |patterns| ==> trees[i] == Tree(patterns[i])
  {
    seq(|patterns|, i requires 0 <= i < |patterns| => Tree(patterns[i]))
  }

  /** Compiles a pattern list with some compiler into an array; the error names the first pattern that does not compile. */
  method CompileTopicsAsRegexes(compile: string -> Option<Regex>, topics: seq<string>) returns (compiled: Result<seq<Regex>, string>)
    ensures match compiled
            case Ok(regexes) => |regexes| == |topics| && forall i :: 0 <= i < |topics| ==> compile(topics[i]) == Some(regexes[i])
            case Err(message) =>
              exists i :: 0 <= i < |topics| && compile(topics[i]) == None && message == "invalid topic in config: " + topics[i]
                && forall k :: 0 <= k < i ==> compile(topics[k]).Some?
  {
    var regexes := new Regex[|topics|];
    for i := 0 to |topics|
      invariant forall k :: 0 <= k < i ==> compile(topics[k]) == Some(regexes[k])
    {
      var reg := compile(topics[i]);
      if reg.None? {
        return Err("invalid topic in config: " + topics[i]);
      }
      regexes[i] := reg.value;
    }
    return Ok(regexes[..]);
  }

  /** With the topic compiler every pattern list is accepted, and compiled to the trees of its patterns. */
  method CompilePatterns(topics: seq<string>) returns (compiled: Result<seq<Regex>, string>)
    ensures compiled == Ok(Trees(topics))
  {
    compiled := CompileTopicsAsRegexes(CompileTopicAsRegex, topics);
    forall i | 0 <= i < |topics|
      ensures CompileTopicAsRegex(topics[i]) == Some(Tree(topics[i]))
    {
      CompilerIsCorrect(topics[i]);
    }
    assert compiled.Ok?;
    assert compiled.value == Trees(topics);
  }

  /** The match closures of the hook. */
  method MatchTopic(regexes: seq<Regex>, ghost patterns: seq<string>, table: char -> char, topic: string) returns (matched: bool)
    requires regexes == Trees(patterns)
    ensures matched <==> MatchesAny(table, patterns, topic)
  {
    var loweredTopic := ToLower(table, topic);
    for i := 0 to |regexes|
      invariant forall k :: 0 <= k < i ==> !MatchesSuffix(patterns[k], loweredTopic)
    {
      PatternMeaning(patterns[i], loweredTopic);
      if MatchString(regexes[i], loweredTopic) {
        return true;
      }
    }
    return false;
  }

  // Consequences for patterns.

  /** A leading `*` changes nothing, because patterns are not anchored at the start. */
  lemma LeadingStarIsRedundant(pattern: string, text: string)
    ensures MatchesSuffix("*" + pattern, text) <==> MatchesSuffix(pattern, text)
  {
    assert ("*" + pattern)[1..] == pattern;
    if MatchesSuffix("*" + pattern, text) {
      var i :| 0 <= i <= |text| && Glob("*" + pattern, text[i..]);
      var k :| 0 <= k <= |text[i..]| && Glob(pattern, text[i..][k..]);
      assert text[i..][k..] == text[i + k..];
    }
    if MatchesSuffix(pattern, text) {
      var i :| 0 <= i <= |text| && Glob(pattern, text[i..]);
      assert text[i..][..0] == [] && text[i..][0..] == text[i..];
      assert Glob("*" + pattern, text[i..]);
    }
  }

  /** Lower-casing adds 32 to exactly the letters from A to Z and keeps every other ASCII character. */
  lemma LoweredAscii(table: char -> char, s: string, k: nat)
    requires k < |s| && s[k] < 128 as char
    ensures 'A' <= s[k] <= 'Z' ==> ToLower(table, s)[k] as int == s[k] as int + 32
    ensures !('A' <= s[k] <= 'Z') ==> ToLower(table, s)[k] == s[k]
  {}

  /** The same character, or the same ASCII letter in the other case. */
  predicate SameLetter(a: char, b: char) {
    || a == b
    || ('A' <= a <= 'Z' && b as int == a as int + 32)
    || ('A' <= b <= 'Z' && a as int == b as int + 32)
  }

  /** Topics that differ in ASCII letter case only are matched alike. */
  lemma CaseIsIgnored(table: char -> char, patterns: seq<string>, a: string, b: string)
    requires |a| == |b| && forall i :: 0 <= i < |a| ==> SameLetter(a[i], b[i])
    ensures MatchesAny(table, patterns, a) <==> MatchesAny(table, patterns, b)
  {
    assert ToLower(table, a) == ToLower(table, b);
  }

  /** Every character of a pattern other than `*` occurs in the texts of its language. */
  lemma {:induction false} GlobNeeds(pattern: string, text: string, c: char)
    requires Glob(pattern, text) && c in pattern && c != '*'
    ensures c in text
    decreases |pattern|
  {
    assert pattern == [pattern[0]] + pattern[1..];
    if pattern[0] == '*' {
      var k :| 0 <= k <= |text| && Glob(pattern[1..], text[k..]);
      GlobNeeds(pattern[1..], text[k..], c);
    } else if pattern[0] != c {
      GlobNeeds(pattern[1..], text[1..], c);
    }
  }

  /** A pattern with an ASCII upper-case letter matches no topic. */
  lemma UpperCasePatternMatchesNothing(table: char -> char, pattern: string, c: char, topic: string)
    requires IsLowering(table) && c in pattern && 'A' <= c <= 'Z'
    ensures !MatchesSuffix(pattern, ToLower(table, topic))
  {
    var text := ToLower(table, topic);
    forall i | 0 <= i <= |text| && Glob(pattern, text[i..])
      ensures c in text[i..]
    {
      GlobNeeds(pattern, text[i..], c);
    }
  }

  /** A pattern of plain text and a final star matches what starts with that text and has no newline behind it. */
  lemma {:induction false} PrefixPattern(pre: string, text: string)
    requires '*' !in pre
    ensures Glob(pre + "*", text) <==> pre <= text && '\n' !in text[|pre|..]
  {
    if pre == [] {
      assert pre + "*" == "*" && "*"[1..] == [];
      assert text[..|text|] == text && text[|text|..] == [];
      assert text[0..] == text;
      if Glob("*", text) {
        var k :| 0 <= k <= |text| && '\n' !in text[..k] && Glob([], text[k..]);
        assert k == |text|;
      }
      if '\n' !in text {
        assert Glob([], text[|text|..]);
      }
    } else {
      assert (pre + "*")[1..] == pre[1..] + "*";
      if text != [] {
        PrefixPattern(pre[1..], text[1..]);
        assert pre <= text <==> pre[0] == text[0] && pre[1..] <= text[1..];
      }
    }
  }

  /** A pattern without a star stands for its own text only. */
  lemma {:induction false} LiteralPattern(pattern: string, text: string)
    requires '*' !in pattern
    ensures Glob(pattern, text) <==> text == pattern
  {
    if pattern != [] && text != [] {
      LiteralPattern(pattern[1..], text[1..]);
      assert pattern == [pattern[0]] + pattern[1..] && text == [text[0]] + text[1..];
    }
  }

  /** A star between a plain text and the rest of a pattern stands for any stretch without a newline. */
  lemma {:induction false} StarPattern(pre: string, rest: string, text: string)
    requires '*' !in pre
    ensures Glob(pre + "*" + rest, text)
       <==> pre <= text && exists k :: |pre| <= k <= |text| && '\n' !in text[|pre|..k] && Glob(rest, text[k..])
  {
    var pattern := pre + "*" + rest;
    if pre == [] {
      assert pattern[1..] == rest;
      assert forall k :: 0 <= k <= |text| ==> text[..k] == text[0..k];
    } else {
      assert pattern[0] == pre[0] && pattern[1..] == pre[1..] + "*" + rest;
      if text != [] {
        StarPattern(pre[1..], rest, text[1..]);
        assert pre <= text <==> pre[0] == text[0] && pre[1..] <= text[1..];
        if pre <= text { StretchMoves(pre, rest, text); }
      }
    }
  }

  lemma StretchMoves(pre: string, rest: string, text: string)
    requires pre != [] && pre <= text
    ensures (exists k :: |pre| <= k <= |text| && '\n' !in text[|pre|..k] && Glob(rest, text[k..]))
       <==> (exists k :: |pre[1..]| <= k <= |text[1..]| && '\n' !in text[1..][|pre[1..]|..k] && Glob(rest, text[1..][k..]))
  {
    forall k | |pre| <= k <= |text|
      ensures text[|pre|..k] == text[1..][|pre[1..]|..k - 1] && text[k..] == text[1..][k - 1..]
    {}
    if k :| |pre| <= k <= |text| && '\n' !in text[|pre|..k] && Glob(rest, text[k..]) {
      assert text[1..][k - 1..] == text[k..];
    }
    if k :| |pre[1..]| <= k <= |text[1..]| && '\n' !in text[1..][|pre[1..]|..k] && Glob(rest, text[1..][k..]) {
      assert text[k + 1..] == text[1..][k..];
    }
  }

  // The hook.

  datatype Hook = Hook(
    users: set<string>,
    verify: (string, string) -> bool,
    publicTopics: seq<string>,
    protectedTopics: seq<string>,
    table: char -> char)

  predicate OnConnectAuthenticate(h: Hook, username: string, password: string) {
    // strangers connect freely; the access check keeps them from protected topics
    if username !in h.users then true else h.verify(username, password)
  }

  ghost predicate OnACLCheck(h: Hook, username: string, topic: string, write: bool) {
    if write then false
    else if MatchesAny(h.table, h.protectedTopics, topic) then username in h.users
    else MatchesAny(h.table, h.publicTopics, topic)
  }

  // Runs of connect, access and disconnect steps.

  datatype Session = Session(username: string, password: string)

  datatype Step =
    | Connect(session: nat, username: string, password: string)
    | Check(session: nat, topic: string, write: bool, granted: bool)
    | Disconnect(session: nat)

  /** The open sessions after a run, or none if the hook decides otherwise than the run says. */
  ghost function Run(h: Hook, steps: seq<Step>): Option<map<nat, Session>> {
    if steps == [] then Some(map[])
    else
      match Run(h, steps[..|steps| - 1])
      case None => None
      case Some(open) =>
        match steps[|steps| - 1]
        case Connect(s, username, password) =>
          if s in open then None
          else if OnConnectAuthenticate(h, username, password) then Some(open[s := Session(username, password)])
          else Some(open)
        case Check(s, topic, write, granted) =>
          if s in open && granted == OnACLCheck(h, open[s].username, topic, write) then Some(open) else None
        case Disconnect(s) => Some(open - {s})
  }

  /** A connect step opens exactly the session of a stranger or of a user with the right password, and touches no other session. */
  lemma ConnectOpens(h: Hook, steps: seq<Step>, session: nat, username: string, password: string)
    requires Run(h, steps).Some? && session !in Run(h, steps).value
    ensures var before, after := Run(h, steps), Run(h, steps + [Connect(session, username, password)]);
            && after.Some?
            && (session in after.value <==> username !in h.users || h.verify(username, password))
            && (session in after.value ==> after.value[session] == Session(username, password))
            && after.value - {session} == before.value
  {
    assert (steps + [Connect(session, username, password)])[..|steps|] == steps;
  }

  /** Where a session is open, a check step is part of a run exactly if it reports what the hook decides, and it changes no session. */
  lemma CheckReports(h: Hook, steps: seq<Step>, session: nat, topic: string, write: bool, granted: bool)
    requires Run(h, steps).Some? && session in Run(h, steps).value
    ensures Run(h, steps + [Check(session, topic, write, granted)])
         == if granted == OnACLCheck(h, Run(h, steps).value[session].username, topic, write) then Run(h, steps) else None
    ensures Run(h, steps + [Disconnect(session)]) == Some(Run(h, steps).value - {session})
  {
    assert (steps + [Disconnect(session)])[..|steps|] == steps;
    assert (steps + [Check(session, topic, write, granted)])[..|steps|] == steps;
  }

  /** A session of a known user gave that user's password when it connected. */
  lemma {:induction false} SessionsAreVerified(h: Hook, steps: seq<Step>)
    requires Run(h, steps).Some?
    ensures forall s :: s in Run(h, steps).value && Run(h, steps).value[s].username in h.users
              ==> h.verify(Run(h, steps).value[s].username, Run(h, steps).value[s].password)
  {
    if steps != [] {
      SessionsAreVerified(h, steps[..|steps| - 1]);
    }
  }

  /** The start of a run is a run. */
  lemma {:induction false} RunPrefix(h: Hook, steps: seq<Step>, n: nat)
    requires Run(h, steps).Some? && n <= |steps|
    ensures Run(h, steps[..n]).Some?
  {
    if n == |steps| {
      assert steps[..n] == steps;
    } else {
      RunPrefix(h, steps[..|steps| - 1], n);
      assert steps[..|steps| - 1][..n] == steps[..n];
    }
  }

  /** In every run a check is granted exactly if it is a read, either of a protected topic in a session of a known user whose
      password was verified, or of a topic that is public and not protected. */
  lemma GrantedChecks(h: Hook, steps: seq<Step>, n: nat)
    requires Run(h, steps).Some? && n < |steps| && steps[n].Check?
    ensures Run(h, steps[..n]).Some? && steps[n].session in Run(h, steps[..n]).value
    ensures var who := Run(h, steps[..n]).value[steps[n].session];
            steps[n].granted <==>
              !steps[n].write
              && ((MatchesAny(h.table, h.protectedTopics, steps[n].topic) && who.username in h.users && h.verify(who.username, who.password))
                  || (!MatchesAny(h.table, h.protectedTopics, steps[n].topic) && MatchesAny(h.table, h.publicTopics, steps[n].topic)))
  {
    RunPrefix(h, steps, n + 1);
    RunPrefix(h, steps, n);
    assert steps[..n + 1][..n] == steps[..n];
    SessionsAreVerified(h, steps[..n]);
  }

  /** One more protected pattern takes from an unknown user exactly the topics that it matches, and gives none. */
  lemma ProtectingShrinks(h: Hook, pattern: string, username: string, topic: string)
    requires username !in h.users
    ensures var h' := h.(protectedTopics := h.protectedTopics + [pattern]);
            OnACLCheck(h', username, topic, false)
            <==> OnACLCheck(h, username, topic, false) && !MatchesSuffix(pattern, ToLower(h.table, topic))
  {
    var more := h.protectedTopics + [pattern];
    assert more[|h.protectedTopics|] == pattern;
    assert forall k :: 0 <= k < |h.protectedTopics| ==> more[k] == h.protectedTopics[k];
  }
}
