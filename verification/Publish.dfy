/** Publishing on demand (pkg/mqtt/publish.go). A payload thunk may do anything to the world it runs in; a nil payload is `None`. */
module Publish {
  import opened Wrappers
  import opened GoStrings
  import opened Hex
  import opened Topics
  import opened Outputs
  import opened TopicLists

  type Encoded = Result<Option<Bytes>, string>

  type Thunk<!S> = S -> (S, Encoded)

  datatype Message = Message(topic: string, payload: Option<Bytes>)

  /** The world afterwards, the messages sent, how often the thunk ran, and the error returned. */
  datatype Outcome<S> = Outcome(world: S, sends: seq<Message>, calls: nat, error: Option<string>)

  function Before<S>(first: seq<Message>, calls: nat, rest: Outcome<S>): Outcome<S> {
    Outcome(rest.world, first + rest.sends, calls + rest.calls, rest.error)
  }

  /** The loop from some topic on, with the payload cached so far; `answers` are what `HasSubscribers` says in turn. */
  function Pass<S>(thunk: Thunk<S>, world: S, topics: seq<string>, answers: seq<bool>, payload: Option<Bytes>): Outcome<S>
    requires |answers| == |topics|
    decreases |topics|
  {
    if topics == [] then Outcome(world, [], 0, None)
    else if !answers[0] then Pass(thunk, world, topics[1..], answers[1..], payload)
    else if payload.Some? then Before([Message(topics[0], payload)], 0, Pass(thunk, world, topics[1..], answers[1..], payload))
    else
      var (after, result) := thunk(world);
      match result
      case Err(e) => Outcome(after, [], 1, Some(e))
      case Ok(p) => Before([Message(topics[0], p)], 1, Pass(thunk, after, topics[1..], answers[1..], p))
  }

  /** One iteration of the loop. */
  lemma PassUnfolds<S>(thunk: Thunk<S>, world: S, topics: seq<string>, answers: seq<bool>, i: nat, payload: Option<Bytes>)
    requires |answers| == |topics| && i < |topics|
    ensures Pass(thunk, world, topics[i..], answers[i..], payload) ==
      if !answers[i] then Pass(thunk, world, topics[i + 1..], answers[i + 1..], payload)
      else if payload.Some? then Before([Message(topics[i], payload)], 0, Pass(thunk, world, topics[i + 1..], answers[i + 1..], payload))
      else
        var (after, result) := thunk(world);
        match result
        case Err(e) => Outcome(after, [], 1, Some(e))
        case Ok(p) => Before([Message(topics[i], p)], 1, Pass(thunk, after, topics[i + 1..], answers[i + 1..], p))
  {}

  lemma BeforeBefore<S>(a: seq<Message>, m: nat, b: seq<Message>, n: nat, rest: Outcome<S>)
    ensures Before(a, m, Before(b, n, rest)) == Before(a + b, m + n, rest)
  {}

  method PublishWithPayloadFuncOnTopicsIfSubscribed<S>(payloadFunc: Thunk<S>, start: S, topics: seq<string>, answers: seq<bool>)
    returns (out: Outcome<S>)
    requires |answers| == |topics|
    ensures out == Pass(payloadFunc, start, topics, answers, None)
  {
    var payload: Option<Bytes> := None;
    var world, sends, calls := start, [], 0;
    assert topics[0..] == topics && answers[0..] == answers;
    for i := 0 to |topics|
      invariant Pass(payloadFunc, start, topics, answers, None)
             == Before(sends, calls, Pass(payloadFunc, world, topics[i..], answers[i..], payload))
    {
      PassUnfolds(payloadFunc, world, topics, answers, i, payload);
      if !answers[i] {
        continue;
      }
      ghost var ran, sent := calls, sends;
      if payload == None {
        // nothing cached: a nil payload of an earlier run counts as nothing
        var (after, result) := payloadFunc(world);
        world, calls := after, calls + 1;
        if result.Err? {
          return Outcome(world, sends, calls, Some(result.error));
        }
        payload := result.value;
      }
      sends := sends + [Message(topics[i], payload)];
      BeforeBefore(sent, ran, [Message(topics[i], payload)], calls - ran, Pass(payloadFunc, world, topics[i + 1..], answers[i + 1..], payload));
    }
    return Outcome(world, sends, calls, None);
  }

  // What a pass does, without its loop.

  /** The topics that were found to have subscribers. */
  function Wanted(topics: seq<string>, answers: seq<bool>): seq<string>
    requires |answers| == |topics|
  {
    if topics == [] then [] else (if answers[0] then [topics[0]] else []) + Wanted(topics[1..], answers[1..])
  }

  function SendAll(topics: seq<string>, payload: Option<Bytes>): (sends: seq<Message>)
    ensures |sends| == |topics| && forall i :: 0 <= i < |topics| ==> sends[i] == Message(topics[i], payload)
  {
    seq(|topics|, i requires 0 <= i < |topics| => Message(topics[i], payload))
  }

  /** No thunk call without a wanted topic; otherwise one call, whose payload goes to every wanted topic. */
  function OnDemand<S>(thunk: Thunk<S>, world: S, wanted: seq<string>): Outcome<S> {
    if wanted == [] then Outcome(world, [], 0, None)
    else
      var (after, result) := thunk(world);
      match result
      case Err(e) => Outcome(after, [], 1, Some(e))
      case Ok(p) => Outcome(after, SendAll(wanted, p), 1, None)
  }

  /** Whether the first run of the thunk decides the pass: nobody else asks, or the result is not a nil payload. */
  predicate Settles<S>(thunk: Thunk<S>, world: S, wanted: seq<string>) {
    |wanted| <= 1 || thunk(world).1 != Ok(None)
  }

  lemma {:induction false} PassWithPayload<S>(thunk: Thunk<S>, world: S, topics: seq<string>, answers: seq<bool>, payload: Option<Bytes>)
    requires |answers| == |topics| && payload.Some?
    ensures Pass(thunk, world, topics, answers, payload) == Outcome(world, SendAll(Wanted(topics, answers), payload), 0, None)
    decreases |topics|
  {
    if topics != [] {
      PassWithPayload(thunk, world, topics[1..], answers[1..], payload);
      if answers[0] {
        assert SendAll(Wanted(topics, answers), payload) == [Message(topics[0], payload)] + SendAll(Wanted(topics[1..], answers[1..]), payload);
      } else {
        assert Wanted(topics, answers) == Wanted(topics[1..], answers[1..]);
      }
    }
  }

  lemma SendAllFirst(first: string, rest: seq<string>, payload: Option<Bytes>)
    ensures SendAll([first] + rest, payload) == [Message(first, payload)] + SendAll(rest, payload)
  {}

  lemma {:induction false} WantedUnfolds(topics: seq<string>, answers: seq<bool>)
    requires |answers| == |topics| && topics != []
    ensures var rest := Wanted(topics[1..], answers[1..]); Wanted(topics, answers) == if answers[0] then [topics[0]] + rest else rest
  {}

  lemma {:induction false} PassSettled<S>(thunk: Thunk<S>, world: S, topics: seq<string>, answers: seq<bool>)
    requires |answers| == |topics| && Settles(thunk, world, Wanted(topics, answers))
    ensures Pass(thunk, world, topics, answers, None) == OnDemand(thunk, world, Wanted(topics, answers))
    decreases |topics|
  {
    if topics != [] {
      WantedUnfolds(topics, answers);
      var rest := Wanted(topics[1..], answers[1..]);
      if !answers[0] {
        PassSettled(thunk, world, topics[1..], answers[1..]);
      } else {
        var (after, result) := thunk(world);
        if result.Ok? {
          SendAllFirst(topics[0], rest, result.value);
          if result.value.Some? {
            PassWithPayload(thunk, after, topics[1..], answers[1..], result.value);
          } else {
            PassSettled(thunk, after, topics[1..], answers[1..]);
          }
        }
      }
    }
  }

  // How often a thunk runs.

  /** How often a thunk runs from `world` on, if it is repeated until it yields a payload or an error, but `limit` times at most. */
  function Runs<S>(thunk: Thunk<S>, world: S, limit: nat): nat {
    if limit == 0 then 0
    else
      var (after, result) := thunk(world);
      if result == Ok(None) then 1 + Runs(thunk, after, limit - 1) else 1
  }

  lemma {:induction false} RunsBounds<S>(thunk: Thunk<S>, world: S, limit: nat)
    ensures Runs(thunk, world, limit) <= limit && (limit > 0 ==> Runs(thunk, world, limit) >= 1)
  {
    if limit > 0 {
      RunsBounds(thunk, thunk(world).0, limit - 1);
    }
  }

  /** A nil payload is taken for an unset one: for every thunk, a pass repeats it over the wanted topics until it yields a payload or an error. */
  lemma {:induction false} NilIsRecomputed<S>(thunk: Thunk<S>, world: S, topics: seq<string>, answers: seq<bool>)
    requires |answers| == |topics|
    ensures Pass(thunk, world, topics, answers, None).calls == Runs(thunk, world, |Wanted(topics, answers)|)
    decreases |topics|
  {
    if topics != [] {
      WantedUnfolds(topics, answers);
      if !answers[0] {
        NilIsRecomputed(thunk, world, topics[1..], answers[1..]);
      } else {
        var (after, result) := thunk(world);
        if result == Ok(None) {
          NilIsRecomputed(thunk, after, topics[1..], answers[1..]);
        } else if result.Ok? {
          PassWithPayload(thunk, after, topics[1..], answers[1..], result.value);
        }
      }
    }
  }

  /** A pass runs its thunk at most once exactly if at most one topic is wanted or the first result is not a nil payload.
      Exactly then it does not run the thunk without need and sends one and the same payload to the wanted topics in order. */
  lemma PassIsOnDemand<S>(thunk: Thunk<S>, world: S, topics: seq<string>, answers: seq<bool>)
    requires |answers| == |topics|
    ensures Pass(thunk, world, topics, answers, None).calls <= 1 <==> Settles(thunk, world, Wanted(topics, answers))
    ensures Pass(thunk, world, topics, answers, None) == OnDemand(thunk, world, Wanted(topics, answers))
       <==> Settles(thunk, world, Wanted(topics, answers))
  {
    var wanted := Wanted(topics, answers);
    NilIsRecomputed(thunk, world, topics, answers);
    if Settles(thunk, world, wanted) {
      PassSettled(thunk, world, topics, answers);
    } else {
      RunsBounds(thunk, thunk(world).0, |wanted| - 1);
      assert Runs(thunk, world, |wanted|) >= 2;
    }
  }

  /** The failing input: the raw payload of a block without raw data is asked for once for each of two subscribed topics. */
  lemma NilRunsTwice(world: int, a: string, b: string)
    ensures var rawData: Option<Bytes> := None;
            var out := Pass((w: int) => (w, Ok(rawData)), world, [a, b], [true, true], None);
            out.calls == 2 && out.sends == [Message(a, None), Message(b, None)]
  {
    var thunk: Thunk<int> := (w: int) => (w, Ok(None));
    assert [a, b][1..] == [b] && [b][1..] == [];
    assert [true, true][1..] == [true] && [true][1..] == [];
    assert Pass(thunk, world, [], [], None) == Outcome(world, [], 0, None);
    assert Pass(thunk, world, [b], [true], None).sends == [Message(b, None)];
  }

  // Two passes.

  method AddTopicsPrefix(topics: seq<string>, prefix: string) returns (rawTopics: array<string>)
    ensures fresh(rawTopics) && rawTopics[..] == WithSuffix(topics, prefix)
  {
    rawTopics := new string[|topics|];
    for i := 0 to |topics|
      invariant rawTopics[..i] == WithSuffix(topics, prefix)[..i]
    {
      rawTopics[i] := topics[i] + prefix;
    }
  }

  function WithSuffix(topics: seq<string>, suffix: string): (raw: seq<string>)
    ensures |raw| == |topics| && forall i :: 0 <= i < |topics| ==> raw[i] == topics[i] + suffix
  {
    seq(|topics|, i requires 0 <= i < |topics| => topics[i] + suffix)
  }

  /** A JSON pass and, if that did not fail, a pass with raw payloads on the raw topics. */
  function TwoPasses<S>(json: Thunk<S>, raw: Thunk<S>, world: S, topics: seq<string>, answers: seq<bool>, rawAnswers: seq<bool>): Outcome<S>
    requires |answers| == |rawAnswers| == |topics|
  {
    var first := Pass(json, world, topics, answers, None);
    if first.error.Some? then first
    else Before(first.sends, first.calls, Pass(raw, first.world, WithSuffix(topics, RAW), rawAnswers, None))
  }

  method PublishWithPayloadFuncsOnTopicsIfSubscribed<S>(jsonPayloadFunc: Thunk<S>, rawPayloadFunc: Thunk<S>, start: S,
                                                        topics: seq<string>, answers: seq<bool>, rawAnswers: seq<bool>)
    returns (out: Outcome<S>)
    requires |answers| == |rawAnswers| == |topics|
    ensures out == TwoPasses(jsonPayloadFunc, rawPayloadFunc, start, topics, answers, rawAnswers)
  {
    out := PublishWithPayloadFuncOnTopicsIfSubscribed(jsonPayloadFunc, start, topics, answers);
    if out.error.Some? {
      return;
    }
    var rawTopics := AddTopicsPrefix(topics, RAW);
    var second := PublishWithPayloadFuncOnTopicsIfSubscribed(rawPayloadFunc, out.world, rawTopics[..], rawAnswers);
    out := Before(out.sends, out.calls, second);
  }

  /** An error of the JSON payload leaves nothing sent and skips the raw pass; an error of the raw payload leaves the JSON messages sent. */
  lemma PublishTrace<S>(json: Thunk<S>, raw: Thunk<S>, world: S, topics: seq<string>, answers: seq<bool>, rawAnswers: seq<bool>)
    requires |answers| == |rawAnswers| == |topics| && Settles(json, world, Wanted(topics, answers))
    requires var first := OnDemand(json, world, Wanted(topics, answers));
             first.error == None ==> Settles(raw, first.world, Wanted(WithSuffix(topics, RAW), rawAnswers))
    ensures var out := TwoPasses(json, raw, world, topics, answers, rawAnswers);
            var first := OnDemand(json, world, Wanted(topics, answers));
            var second := OnDemand(raw, first.world, Wanted(WithSuffix(topics, RAW), rawAnswers));
            if first.error.Some? then out == Outcome(first.world, [], 1, first.error)
            else if second.error.Some? then out == Outcome(second.world, first.sends, first.calls + 1, second.error)
            else out == Outcome(second.world, first.sends + second.sends, first.calls + second.calls, None)
  {
    PassSettled(json, world, topics, answers);
    var first := OnDemand(json, world, Wanted(topics, answers));
    if first.error == None {
      PassSettled(raw, first.world, WithSuffix(topics, RAW), rawAnswers);
      assert first.sends + [] == first.sends;
    }
  }

  // What a pass sends, whatever its thunk does.

  /** The world after `k` runs. */
  function After<S>(thunk: Thunk<S>, world: S, k: nat): S {
    if k == 0 then world else After(thunk, thunk(world).0, k - 1)
  }

  /** The first `k` runs yield nil payloads. */
  predicate Nils<S>(thunk: Thunk<S>, world: S, k: nat) {
    k == 0 || (thunk(world).1 == Ok(None) && Nils(thunk, thunk(world).0, k - 1))
  }

  /** The payload is what a pass that starts in `world` got from its thunk, all earlier runs of the pass having yielded nil. */
  ghost predicate Made<S>(thunk: Thunk<S>, world: S, payload: Option<Bytes>) {
    exists k: nat :: Nils(thunk, world, k) && thunk(After(thunk, world, k)).1 == Ok(payload)
  }

  lemma MadeAtOnce<S>(thunk: Thunk<S>, world: S)
    requires thunk(world).1.Ok?
    ensures Made(thunk, world, thunk(world).1.value)
  {
    assert Nils(thunk, world, 0) && After(thunk, world, 0) == world;
  }

  lemma MadeLater<S>(thunk: Thunk<S>, world: S, payload: Option<Bytes>)
    requires thunk(world).1 == Ok(None) && Made(thunk, thunk(world).0, payload)
    ensures Made(thunk, world, payload)
  {
    var after := thunk(world).0;
    var k: nat :| Nils(thunk, after, k) && thunk(After(thunk, after, k)).1 == Ok(payload);
    assert Nils(thunk, world, k + 1) && After(thunk, world, k + 1) == After(thunk, after, k);
  }

  /** Where the first result is not nil, a pass makes that payload and no other. */
  lemma MadeExact<S>(thunk: Thunk<S>, world: S, payload: Option<Bytes>)
    requires thunk(world).1 != Ok(None)
    ensures Made(thunk, world, payload) <==> thunk(world).1 == Ok(payload)
  {
    if thunk(world).1 == Ok(payload) {
      MadeAtOnce(thunk, world);
    }
  }

  /** A pass sends to the wanted topics in order, as far as it gets, and what it sends was made by its thunk in this pass. */
  lemma {:induction false} PassSends<S>(thunk: Thunk<S>, world: S, topics: seq<string>, answers: seq<bool>)
    requires |answers| == |topics|
    ensures var out := Pass(thunk, world, topics, answers, None);
            var wanted := Wanted(topics, answers);
            && |out.sends| <= |wanted| && (out.error == None ==> |out.sends| == |wanted|)
            && forall i :: 0 <= i < |out.sends| ==> out.sends[i].topic == wanted[i] && Made(thunk, world, out.sends[i].payload)
    decreases |topics|
  {
    if topics != [] {
      WantedUnfolds(topics, answers);
      if !answers[0] {
        PassSends(thunk, world, topics[1..], answers[1..]);
      } else {
        var (after, result) := thunk(world);
        if result.Ok? {
          MadeAtOnce(thunk, world);
          if result.value.Some? {
            PassWithPayload(thunk, after, topics[1..], answers[1..], result.value);
          } else {
            PassSends(thunk, after, topics[1..], answers[1..]);
            forall p | Made(thunk, after, p)
              ensures Made(thunk, world, p)
            {
              MadeLater(thunk, world, p);
            }
          }
        }
      }
    }
  }

  // One message per topic.

  lemma {:induction false} WantedAreTopics(topics: seq<string>, answers: seq<bool>)
    requires |answers| == |topics|
    ensures forall t :: t in Wanted(topics, answers) ==> t in topics
    ensures NoDup(topics) ==> NoDup(Wanted(topics, answers))
  {
    if topics != [] {
      WantedAreTopics(topics[1..], answers[1..]);
      assert NoDup(topics) ==> NoDup(topics[1..]) && topics[0] !in topics[1..];
    }
  }

  predicate OnePerTopic(sends: seq<Message>) {
    forall i, j :: 0 <= i < j < |sends| ==> sends[i].topic != sends[j].topic
  }

  lemma RawTopicsDiffer(topics: seq<string>)
    requires DistinctWithRaw(topics)
    ensures NoDup(WithSuffix(topics, RAW)) && forall t, u :: t in topics && u in WithSuffix(topics, RAW) ==> t != u
  {
    var rawTopics := WithSuffix(topics, RAW);
    forall i, j | 0 <= i < j < |rawTopics|
      ensures rawTopics[i] != rawTopics[j]
    {
      assert rawTopics[i][..|rawTopics[i]| - 4] == topics[i] && rawTopics[j][..|rawTopics[j]| - 4] == topics[j];
    }
    forall t, u | t in topics && u in rawTopics
      ensures t != u
    {
      var k :| 0 <= k < |rawTopics| && rawTopics[k] == u;
      assert topics[k] in topics;
    }
  }

  /** Messages to an initial part of `topics`, in order. */
  predicate SentTo(sends: seq<Message>, topics: seq<string>) {
    |sends| <= |topics| && forall i :: 0 <= i < |sends| ==> sends[i].topic == topics[i]
  }

  lemma JoinedOnePerTopic(first: seq<Message>, second: seq<Message>, a: seq<string>, b: seq<string>)
    requires SentTo(first, a) && SentTo(second, b)
    requires NoDup(a) && NoDup(b) && forall t, u :: t in a && u in b ==> t != u
    ensures OnePerTopic(first) && OnePerTopic(first + second)
  {
    var sends := first + second;
    forall i, j | 0 <= i < j < |sends|
      ensures sends[i].topic != sends[j].topic
    {
      assert i < |first| ==> sends[i].topic == a[i] && a[i] in a;
      assert j >= |first| ==> sends[j].topic == b[j - |first|] && b[j - |first|] in b;
    }
  }

  /** A publish call on topics that differ from each other and from the raw forms sends at most one message on each topic. */
  lemma OneMessagePerTopic<S>(json: Thunk<S>, raw: Thunk<S>, world: S, topics: seq<string>, answers: seq<bool>, rawAnswers: seq<bool>)
    requires |answers| == |rawAnswers| == |topics| && DistinctWithRaw(topics)
    ensures OnePerTopic(TwoPasses(json, raw, world, topics, answers, rawAnswers).sends)
  {
    var rawTopics := WithSuffix(topics, RAW);
    RawTopicsDiffer(topics);
    WantedAreTopics(topics, answers);
    WantedAreTopics(rawTopics, rawAnswers);
    PassSends(json, world, topics, answers);
    var first := Pass(json, world, topics, answers, None);
    PassSends(raw, first.world, rawTopics, rawAnswers);
    var second := Pass(raw, first.world, rawTopics, rawAnswers, None);
    JoinedOnePerTopic(first.sends, second.sends, Wanted(topics, answers), Wanted(rawTopics, rawAnswers));
  }
}
