/** From a live subscription to a message: the listener protocol, routing and publishing together. */
module Delivery {
  import opened Wrappers
  import opened GoStrings
  import Hex
  import opened Topics
  import opened Routing
  import opened Outputs
  import opened Events
  import opened TopicLists
  import opened Publish
  import opened Inclusion
  import opened Coverage
  import opened Listeners
  import opened Protocol

  /** What `HasSubscribers` answers for each topic. */
  function Answers(topics: seq<string>, subscribed: set<string>): (answers: seq<bool>)
    ensures |answers| == |topics| && forall i :: 0 <= i < |topics| ==> answers[i] == (topics[i] in subscribed)
  {
    seq(|topics|, i requires 0 <= i < |topics| => topics[i] in subscribed)
  }

  /** The payload thunks of a call; `begin` declares the variables that they capture. */
  datatype Thunks<!S> = Thunks(begin: S -> S, json: Thunk<S>, raw: Thunk<S>)

  function PublishCall<S>(thunks: Thunks<S>, world: S, topics: seq<string>, subscribed: set<string>): Outcome<S> {
    TwoPasses(thunks.json, thunks.raw, thunks.begin(world), topics, Answers(topics, subscribed), Answers(WithSuffix(topics, RAW), subscribed))
  }

  /** The first pass of a call, which leaves behind the world that the raw pass starts in. */
  function JsonPass<S>(thunks: Thunks<S>, start: S, topics: seq<string>, subscribed: set<string>): Outcome<S> {
    Pass(thunks.json, start, topics, Answers(topics, subscribed), None)
  }

  /** A listener makes the publish calls of an event one after the other and goes on when one of them fails. */
  function Handle<S>(calls: seq<seq<string>>, thunks: seq<Thunks<S>>, world: S, subscribed: set<string>): seq<Message>
    requires |thunks| == |calls|
    decreases |calls|
  {
    if calls == [] then []
    else
      var first := PublishCall(thunks[0], world, calls[0], subscribed);
      first.sends + Handle(calls[1..], thunks[1..], first.world, subscribed)
  }

  /** The world in which call `i` starts its JSON pass. */
  function StartOf<S>(calls: seq<seq<string>>, thunks: seq<Thunks<S>>, world: S, subscribed: set<string>, i: nat): S
    requires |thunks| == |calls| && i < |calls|
    decreases i
  {
    if i == 0 then thunks[0].begin(world)
    else StartOf(calls[1..], thunks[1..], PublishCall(thunks[0], world, calls[0], subscribed).world, subscribed, i - 1)
  }

  /** Run in this world, the thunk succeeds with a payload. */
  predicate Yields<S>(thunk: Thunk<S>, world: S) {
    thunk(world).1.Ok? && thunk(world).1.value.Some?
  }

  lemma {:induction false} WantedMembers(topics: seq<string>, subscribed: set<string>, t: string)
    ensures t in Wanted(topics, Answers(topics, subscribed)) <==> t in topics && t in subscribed
  {
    if topics != [] {
      WantedMembers(topics[1..], subscribed, t);
      assert Answers(topics, subscribed)[1..] == Answers(topics[1..], subscribed);
      assert topics == [topics[0]] + topics[1..];
    }
  }

  /** A pass sends only to subscribed topics, payloads that it got from its thunk; if the thunk yields one at once, to all of them. */
  lemma PassDelivers<S>(thunk: Thunk<S>, world: S, topics: seq<string>, subscribed: set<string>)
    ensures var out := Pass(thunk, world, topics, Answers(topics, subscribed), None);
            && (forall m :: m in out.sends ==> m.topic in topics && m.topic in subscribed && Made(thunk, world, m.payload))
            && (Yields(thunk, world) ==>
                  out.error == None && forall t :: t in topics && t in subscribed ==> Message(t, thunk(world).1.value) in out.sends)
  {
    var answers := Answers(topics, subscribed);
    var wanted := Wanted(topics, answers);
    PassSends(thunk, world, topics, answers);
    forall t {
      WantedMembers(topics, subscribed, t);
    }
    assert forall t :: t in wanted ==> t in topics && t in subscribed;
    if Yields(thunk, world) {
      PassSettled(thunk, world, topics, answers);
      var out := OnDemand(thunk, world, wanted);
      forall t | t in topics && t in subscribed
        ensures Message(t, thunk(world).1.value) in out.sends
      {
        var i :| 0 <= i < |wanted| && wanted[i] == t;
        assert out.sends[i] == Message(t, thunk(world).1.value);
      }
    }
  }

  /** A message of a call that starts in `start`: on one of the topics with a payload of the JSON pass, or on a raw topic
      with a payload of the raw pass, which only happens behind a JSON pass without an error. */
  ghost predicate FromCall<S>(m: Message, thunks: Thunks<S>, start: S, topics: seq<string>, subscribed: set<string>) {
    var json := JsonPass(thunks, start, topics, subscribed);
    || (m.topic in topics && Made(thunks.json, start, m.payload))
    || (m.topic in WithSuffix(topics, RAW) && json.error == None && Made(thunks.raw, json.world, m.payload))
  }

  /** A subscriber of `t` is served by a call that starts in `start`: with the JSON payload if the JSON thunk yields one there,
      with the raw payload if the JSON pass has no error and the raw thunk yields one in the world that the JSON pass leaves. */
  predicate Serves<S>(sends: seq<Message>, t: string, thunks: Thunks<S>, start: S, topics: seq<string>, subscribed: set<string>) {
    var json := JsonPass(thunks, start, topics, subscribed);
    && (t in topics && Yields(thunks.json, start) ==> Message(t, thunks.json(start).1.value) in sends)
    && (t in WithSuffix(topics, RAW) && json.error == None && Yields(thunks.raw, json.world) ==>
          Message(t, thunks.raw(json.world).1.value) in sends)
  }

  /** One call serves the subscribed ones among its topics and their raw forms, and sends nothing else, whatever its thunks do. */
  lemma CallDelivers<S>(thunks: Thunks<S>, world: S, topics: seq<string>, subscribed: set<string>)
    ensures var sends := PublishCall(thunks, world, topics, subscribed).sends;
            && (forall m :: m in sends ==> m.topic in subscribed && FromCall(m, thunks, thunks.begin(world), topics, subscribed))
            && (forall t :: t in subscribed ==> Serves(sends, t, thunks, thunks.begin(world), topics, subscribed))
  {
    var start := thunks.begin(world);
    PassDelivers(thunks.json, start, topics, subscribed);
    var json := JsonPass(thunks, start, topics, subscribed);
    PassDelivers(thunks.raw, json.world, WithSuffix(topics, RAW), subscribed);
  }

  lemma ServedAmongMore<S>(before: seq<Message>, sends: seq<Message>, after: seq<Message>, t: string,
                           thunks: Thunks<S>, start: S, topics: seq<string>, subscribed: set<string>)
    requires Serves(sends, t, thunks, start, topics, subscribed)
    ensures Serves(before + sends + after, t, thunks, start, topics, subscribed)
  {}

  /** What other calls do, and whether they fail, costs a subscriber nothing. */
  lemma {:induction false} HandleDelivers<S>(calls: seq<seq<string>>, thunks: seq<Thunks<S>>, world: S, subscribed: set<string>, i: nat, t: string)
    requires |thunks| == |calls| && i < |calls| && t in subscribed
    ensures Serves(Handle(calls, thunks, world, subscribed), t, thunks[i], StartOf(calls, thunks, world, subscribed, i), calls[i], subscribed)
    decreases i
  {
    var first := PublishCall(thunks[0], world, calls[0], subscribed);
    var rest := Handle(calls[1..], thunks[1..], first.world, subscribed);
    if i == 0 {
      CallDelivers(thunks[0], world, calls[0], subscribed);
      ServedAmongMore([], first.sends, rest, t, thunks[0], thunks[0].begin(world), calls[0], subscribed);
      assert [] + first.sends + rest == first.sends + rest;
    } else {
      HandleDelivers(calls[1..], thunks[1..], first.world, subscribed, i - 1, t);
      ServedAmongMore(first.sends, rest, [], t, thunks[i], StartOf(calls, thunks, world, subscribed, i), calls[i], subscribed);
      assert first.sends + rest + [] == first.sends + rest;
    }
  }

  lemma {:induction false} HandleSendsOnlySubscribed<S>(calls: seq<seq<string>>, thunks: seq<Thunks<S>>, world: S, subscribed: set<string>, m: Message)
    returns (i: nat)
    requires |thunks| == |calls| && m in Handle(calls, thunks, world, subscribed)
    ensures m.topic in subscribed
    ensures i < |calls| && FromCall(m, thunks[i], StartOf(calls, thunks, world, subscribed, i), calls[i], subscribed)
    decreases |calls|
  {
    CallDelivers(thunks[0], world, calls[0], subscribed);
    var first := PublishCall(thunks[0], world, calls[0], subscribed);
    if m in first.sends {
      i := 0;
    } else {
      var k := HandleSendsOnlySubscribed(calls[1..], thunks[1..], first.world, subscribed, m);
      i := k + 1;
    }
  }

  /** The topics of the live subscriptions. */
  function SubscribedTopics(st: State): set<string> {
    set id | id in st.subs :: st.subs[id].topic
  }

  lemma SuffixedMember(topics: seq<string>, u: string)
    requires u in topics
    ensures u + RAW in WithSuffix(topics, RAW)
  {}

  /** Between events of a quiet run, when `HasSubscribers` agrees with the live subscriptions, every live subscription is served:
      an event that concerns its topic comes from a stream with a recorded, running and uncancelled listener, and handling the
      event sends the payload of its form on the topic, if this payload can be made when its turn comes. */
  lemma EndToEnd<S>(steps: seq<Step>, id: nat, codec: Codec, e: Event, i: nat, u: string, thunks: seq<Thunks<S>>, world: S)
    requires Exec(steps, true).Some? && AtBoundary(Exec(steps, true).value) && id in Exec(steps, true).value.subs
    requires Valid(e) && i < |EventCalls(codec, e)| && u in EventCalls(codec, e)[i] && |thunks| == |EventCalls(codec, e)|
    requires var t := Exec(steps, true).value.subs[id].topic; t == u || t == u + "/raw"
    ensures var st := Exec(steps, true).value;
            var s := StreamOf(e);
            s in st.table.entries && Running(st.table, st.table.entries[s].owner)
            && st.table.listeners[st.table.entries[s].owner].stream == s && !st.parentCancelled
    ensures var st := Exec(steps, true).value;
            var calls, subscribed := EventCalls(codec, e), SubscribedTopics(st);
            var t := st.subs[id].topic;
            && t in calls[i] + WithSuffix(calls[i], RAW)
            && Serves(Handle(calls, thunks, world, subscribed), t, thunks[i], StartOf(calls, thunks, world, subscribed, i), calls[i], subscribed)
  {
    var st := Exec(steps, true).value;
    var t := st.subs[id].topic;
    RoutingIsComplete(codec, e, i, u);
    LiveSubscriberHasListener(steps, id, StreamOf(e));
    SuffixedMember(EventCalls(codec, e)[i], u);
    assert t in SubscribedTopics(st);
    HandleDelivers(EventCalls(codec, e), thunks, world, SubscribedTopics(st), i, t);
  }

  /** In particular every live subscriber of a topic that an event concerns is reached by one of its calls. */
  lemma ConcernedAreServed<S>(steps: seq<Step>, id: nat, codec: Codec, e: Event, u: string, thunks: seq<Thunks<S>>, world: S)
    requires Exec(steps, true).Some? && AtBoundary(Exec(steps, true).value) && id in Exec(steps, true).value.subs
    requires Valid(e) && Concerns(codec, e, u) && |thunks| == |EventCalls(codec, e)|
    requires var t := Exec(steps, true).value.subs[id].topic; t == u || t == u + "/raw"
    ensures var st := Exec(steps, true).value;
            var calls, subscribed, t := EventCalls(codec, e), SubscribedTopics(st), st.subs[id].topic;
            exists i :: 0 <= i < |calls| && u in calls[i]
              && Serves(Handle(calls, thunks, world, subscribed), t, thunks[i], StartOf(calls, thunks, world, subscribed, i), calls[i], subscribed)
  {
    EventTopicsExact(codec, e, u);
    var i :| 0 <= i < |EventCalls(codec, e)| && u in EventCalls(codec, e)[i];
    EndToEnd(steps, id, codec, e, i, u, thunks, world);
  }

  /** And nothing else is sent: whatever the calls and their thunks, every message is on the topic of a live subscription, and on a
      topic of one of the calls or its raw form, with a payload that this call got from the thunk of this form. */
  lemma OnlySubscribersAreServed<S>(st: State, calls: seq<seq<string>>, thunks: seq<Thunks<S>>, world: S, m: Message)
    requires |thunks| == |calls| && m in Handle(calls, thunks, world, SubscribedTopics(st))
    ensures exists id :: id in st.subs && st.subs[id].topic == m.topic
    ensures exists i :: 0 <= i < |calls|
              && FromCall(m, thunks[i], StartOf(calls, thunks, world, SubscribedTopics(st), i), calls[i], SubscribedTopics(st))
  {
    var i := HandleSendsOnlySubscribed(calls, thunks, world, SubscribedTopics(st), m);
  }

  /** Whatever the subscriptions do meanwhile and whatever the thunks do, one publish call of a listener sends at most one message on each topic. */
  lemma EventCallSendsOncePerTopic<S>(codec: Codec, e: Event, i: nat, thunks: Thunks<S>, start: S, answers: seq<bool>, rawAnswers: seq<bool>)
    requires Valid(e) && SlashFreeEvent(e) && i < |EventCalls(codec, e)|
    requires |answers| == |rawAnswers| == |EventCalls(codec, e)[i]|
    ensures OnePerTopic(TwoPasses(thunks.json, thunks.raw, start, EventCalls(codec, e)[i], answers, rawAnswers).sends)
  {
    EventCallsDistinct(codec, e);
    OneMessagePerTopic(thunks.json, thunks.raw, start, EventCalls(codec, e)[i], answers, rawAnswers);
  }

  // How many messages an event sends on a topic.

  function MessagesOn(sends: seq<Message>, t: string): nat {
    if sends == [] then 0 else One(sends[0].topic == t) + MessagesOn(sends[1..], t)
  }

  lemma {:induction false} MessagesOnConcat(a: seq<Message>, b: seq<Message>, t: string)
    ensures MessagesOn(a + b, t) == MessagesOn(a, t) + MessagesOn(b, t)
  {
    if a == [] {
      assert a + b == b;
    } else {
      assert (a + b)[1..] == a[1..] + b;
      MessagesOnConcat(a[1..], b, t);
    }
  }

  lemma {:induction false} OneMessageOn(sends: seq<Message>, t: string)
    requires OnePerTopic(sends)
    ensures MessagesOn(sends, t) == One(exists m :: m in sends && m.topic == t)
  {
    if sends != [] {
      OneMessageOn(sends[1..], t);
      assert sends == [sends[0]] + sends[1..];
      assert sends[0].topic == t ==> forall m :: m in sends[1..] ==> m.topic != t;
    }
  }

  /** The topic that `t` is the raw form of, if any, has these many calls. */
  function RawCallsOn(calls: seq<seq<string>>, t: string): nat {
    if HasSuffix(t, "/raw") then CallsOn(calls, t[..|t| - 4]) else 0
  }

  lemma RawMember(topics: seq<string>, t: string)
    ensures t in WithSuffix(topics, RAW) <==> HasSuffix(t, "/raw") && t[..|t| - 4] in topics
  {
    if t in WithSuffix(topics, RAW) {
      var k :| 0 <= k < |topics| && WithSuffix(topics, RAW)[k] == t;
      assert t == topics[k] + "/raw";
    }
    if HasSuffix(t, "/raw") && t[..|t| - 4] in topics {
      SuffixedMember(topics, t[..|t| - 4]);
      assert t == t[..|t| - 4] + RAW;
    }
  }

  lemma CallMessages<S>(thunks: Thunks<S>, world: S, topics: seq<string>, subscribed: set<string>, t: string)
    requires DistinctWithRaw(topics)
    ensures MessagesOn(PublishCall(thunks, world, topics, subscribed).sends, t) <= One(t in topics) + One(t in WithSuffix(topics, RAW))
  {
    var sends := PublishCall(thunks, world, topics, subscribed).sends;
    OneMessagePerTopic(thunks.json, thunks.raw, thunks.begin(world), topics, Answers(topics, subscribed), Answers(WithSuffix(topics, RAW), subscribed));
    OneMessageOn(sends, t);
    CallDelivers(thunks, world, topics, subscribed);
  }

  lemma {:induction false} HandleMessages<S>(calls: seq<seq<string>>, thunks: seq<Thunks<S>>, world: S, subscribed: set<string>, t: string)
    requires |thunks| == |calls| && AllDistinct(calls)
    ensures MessagesOn(Handle(calls, thunks, world, subscribed), t) <= CallsOn(calls, t) + RawCallsOn(calls, t)
    decreases |calls|
  {
    if calls != [] {
      var first := PublishCall(thunks[0], world, calls[0], subscribed);
      CallMessages(thunks[0], world, calls[0], subscribed, t);
      RawMember(calls[0], t);
      HandleMessages(calls[1..], thunks[1..], first.world, subscribed, t);
      MessagesOnConcat(first.sends, Handle(calls[1..], thunks[1..], first.world, subscribed), t);
    }
  }

  /** Handling an event sends no more messages on a topic than the event is worth there, plainly or as the raw form of a topic. */
  lemma MessagesAreDue<S>(codec: Codec, e: Event, thunks: seq<Thunks<S>>, world: S, subscribed: set<string>, t: string)
    requires Valid(e) && SlashFreeEvent(e) && |thunks| == |EventCalls(codec, e)|
    ensures MessagesOn(Handle(EventCalls(codec, e), thunks, world, subscribed), t)
         <= Due(codec, e, t) + if HasSuffix(t, "/raw") then Due(codec, e, t[..|t| - 4]) else 0
  {
    EventCallsDistinct(codec, e);
    HandleMessages(EventCalls(codec, e), thunks, world, subscribed, t);
    CallsAreDue(codec, e, t);
    if HasSuffix(t, "/raw") {
      CallsAreDue(codec, e, t[..|t| - 4]);
    }
  }

  /** A block, an accepted block or a confirmed block is sent at most once on each topic. */
  lemma BlocksAreSentOnce<S>(codec: Codec, e: Event, thunks: seq<Thunks<S>>, world: S, subscribed: set<string>)
    requires Valid(e) && (e.BlockEvent? || e.AcceptedBlockEvent? || e.ConfirmedBlockEvent?) && |thunks| == |EventCalls(codec, e)|
    ensures OnePerTopic(Handle(EventCalls(codec, e), thunks, world, subscribed))
  {
    var calls := EventCalls(codec, e);
    EventCallsDistinct(codec, e);
    var first := PublishCall(thunks[0], world, calls[0], subscribed);
    OneMessagePerTopic(thunks[0].json, thunks[0].raw, thunks[0].begin(world), calls[0],
                       Answers(calls[0], subscribed), Answers(WithSuffix(calls[0], RAW), subscribed));
    assert Handle(calls, thunks, world, subscribed) == first.sends;
  }

  // The inclusion publisher as one of the calls.

  /** Each call of the inclusion publisher has a `blockMetadata` variable of its own, which is nil at first. */
  function InclusionThunks<A, M>(f: BlockIDFunc, json: (A, M) -> Encoded, raw: (A, M) -> Encoded): Thunks<World<A, M>> {
    Thunks((w: World<A, M>) => w.(blockMetadata := None), PayloadThunk(f, json), PayloadThunk(f, raw))
  }

  lemma {:induction false} StartBegins<S>(calls: seq<seq<string>>, thunks: seq<Thunks<S>>, world: S, subscribed: set<string>, i: nat)
    returns (before: S)
    requires |thunks| == |calls| && i < |calls|
    ensures StartOf(calls, thunks, world, subscribed, i) == thunks[i].begin(before)
    decreases i
  {
    if i == 0 {
      before := world;
    } else {
      before := StartBegins(calls[1..], thunks[1..], PublishCall(thunks[0], world, calls[0], subscribed).world, subscribed, i - 1);
    }
  }

  /** A subscriber of `t` gets its form of the metadata `m`, if that can be encoded; `u` is the plain topic and `node` what the call
      finds. A plain subscriber, whose encoding comes first, also takes the first API look-up and stops the call if it fails. */
  predicate MetadataServed<A, M>(sends: seq<Message>, t: string, u: string, subscribed: set<string>,
                                 json: (A, M) -> Encoded, raw: (A, M) -> Encoded, node: Node<A, M>, m: M)
  {
    var k := node.apiCalls;
    var first, second := json(node.apis(k), m), raw(node.apis(if u in subscribed then k + 1 else k), m);
    && (t == u && first.Ok? && first.value.Some? ==> Message(t, first.value) in sends)
    && (t == u + "/raw" && (u in subscribed ==> first.Ok?) && second.Ok? && second.value.Some? ==> Message(t, second.value) in sends)
  }

  /** What the two passes of the inclusion publisher find when the node answers. */
  lemma InclusionPasses<A, M>(f: BlockIDFunc, json: (A, M) -> Encoded, raw: (A, M) -> Encoded, start: World<A, M>, u: string, subscribed: set<string>, m: M)
    requires start.blockMetadata == None && Leads(f, start.node, m)
    ensures var k := start.node.apiCalls;
            var first := json(start.node.apis(k), m);
            var pass := JsonPass(InclusionThunks(f, json, raw), start, [u], subscribed);
            && PayloadThunk(f, json)(start).1 == first
            && (pass.error == None <==> (u in subscribed ==> first.Ok?))
            && PayloadThunk(f, raw)(pass.world).1 == raw(start.node.apis(if u in subscribed then k + 1 else k), m)
  {
    assert Answers([u], subscribed) == [u in subscribed];
    SinglePass(PayloadThunk(f, json), start, u, u in subscribed);
    MetadataOfBlock(f, start.(node := start.node.(apiCalls := start.node.apiCalls + 1)), m);
  }

  lemma InclusionServes<A, M>(sends: seq<Message>, t: string, u: string, subscribed: set<string>, f: BlockIDFunc,
                              json: (A, M) -> Encoded, raw: (A, M) -> Encoded, start: World<A, M>, m: M)
    requires start.blockMetadata == None && Leads(f, start.node, m)
    requires Serves(sends, t, InclusionThunks(f, json, raw), start, [u], subscribed)
    ensures MetadataServed(sends, t, u, subscribed, json, raw, start.node, m)
  {
    InclusionPasses(f, json, raw, start, u, subscribed, m);
    assert WithSuffix([u], RAW) == [u + RAW];
  }

  /** A new subscriber of the topic, plain or raw, gets the metadata of the block that holds the transaction's first output. */
  lemma NewSubscriberGetsInclusion<A, M>(transaction: TransactionID, json: (A, M) -> Encoded, raw: (A, M) -> Encoded, world: World<A, M>,
                                         subscribed: set<string>, t: string, block: BlockID, m: M)
    requires world.node.outputAnswers(|world.node.outputFetches|, transaction + [0, 0]) == Ok(block)
    requires world.node.metadataAnswers(|world.node.metadataFetches|, block) == Ok(m) && t in subscribed
    ensures var u := GetTopicTransactionsIncludedBlockMetadata(transaction);
            var sends := PublishCall(InclusionThunks(FromFirstOutput(transaction), json, raw), world, [u], subscribed).sends;
            MetadataServed(sends, t, u, subscribed, json, raw, world.node, m)
  {
    var u, f := GetTopicTransactionsIncludedBlockMetadata(transaction), FromFirstOutput(transaction);
    var thunks := InclusionThunks(f, json, raw);
    CallDelivers(thunks, world, [u], subscribed);
    InclusionServes(PublishCall(thunks, world, [u], subscribed).sends, t, u, subscribed, f, json, raw, thunks.begin(world), m);
  }

  /** Between events of a quiet run, a subscriber of a transaction's included-block-metadata topic, plain or raw, is served by every
      event with a publish call on this topic: if the node answers the fetch of this call, the subscriber gets the answer in its form,
      whatever becomes of the other calls. */
  lemma InclusionIsDelivered<A, M>(steps: seq<Step>, id: nat, codec: Codec, e: Event, i: nat, transaction: TransactionID, f: BlockIDFunc,
                                   json: (A, M) -> Encoded, raw: (A, M) -> Encoded, thunks: seq<Thunks<World<A, M>>>, world: World<A, M>, m: M)
    requires Exec(steps, true).Some? && AtBoundary(Exec(steps, true).value) && id in Exec(steps, true).value.subs
    requires Valid(e) && i < |EventCalls(codec, e)| && |thunks| == |EventCalls(codec, e)|
    requires EventCalls(codec, e)[i] == [GetTopicTransactionsIncludedBlockMetadata(transaction)]
    requires thunks[i] == InclusionThunks(f, json, raw)
    requires Leads(f, StartOf(EventCalls(codec, e), thunks, world, SubscribedTopics(Exec(steps, true).value), i).node, m)
    ensures var st := Exec(steps, true).value;
            var calls, subscribed := EventCalls(codec, e), SubscribedTopics(st);
            MetadataServed(Handle(calls, thunks, world, subscribed), st.subs[id].topic, GetTopicTransactionsIncludedBlockMetadata(transaction),
                           subscribed, json, raw, StartOf(calls, thunks, world, subscribed, i).node, m)
  {
    var st := Exec(steps, true).value;
    var calls, subscribed := EventCalls(codec, e), SubscribedTopics(st);
    var u, t := GetTopicTransactionsIncludedBlockMetadata(transaction), st.subs[id].topic;
    if t == u || t == u + RAW {
      EndToEnd(steps, id, codec, e, i, u, thunks, world);
      var before := StartBegins(calls, thunks, world, subscribed, i);
      InclusionServes(Handle(calls, thunks, world, subscribed), t, u, subscribed, f, json, raw,
                      StartOf(calls, thunks, world, subscribed, i), m);
    }
  }
}
