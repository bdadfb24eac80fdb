/** The memoised fetch behind the included-block-metadata topic (pkg/mqtt/server.go, pkg/mqtt/publish.go). */
module Inclusion {
  import opened Wrappers
  import Hex
  import opened Topics
  import opened TopicLists
  import opened Publish

  /** The node's answers, which may change from call to call, and what was asked so far: output fetches, metadata fetches and API look-ups. */
  datatype Node<A, M> = Node(
    outputAnswers: (nat, OutputID) -> Result<BlockID, string>,
    metadataAnswers: (nat, BlockID) -> Result<M, string>,
    apis: nat -> A,
    outputFetches: seq<OutputID>,
    metadataFetches: seq<Result<M, string>>,
    apiCalls: nat)

  /** The captured variable `blockMetadata` and the node. */
  datatype World<A, M> = World(blockMetadata: Option<M>, node: Node<A, M>)

  /** How the block of the transaction is found: it is given, or it is read from the transaction's first output. */
  datatype BlockIDFunc = Known(block: BlockID) | FromFirstOutput(transaction: TransactionID)

  function CallBlockIDFunc<A, M>(f: BlockIDFunc, node: Node<A, M>): (Node<A, M>, Result<BlockID, string>) {
    match f
    case Known(block) => (node, Ok(block))
    case FromFirstOutput(transaction) =>
      var output := FirstOutputOf(transaction);
      (node.(outputFetches := node.outputFetches + [output]), node.outputAnswers(|node.outputFetches|, output))
  }

  function FetchMetadata<A, M>(node: Node<A, M>, block: BlockID): (Node<A, M>, Result<M, string>) {
    var answer := node.metadataAnswers(|node.metadataFetches|, block);
    (node.(metadataFetches := node.metadataFetches + [answer]), answer)
  }

  function MetadataFunc<A, M>(f: BlockIDFunc, w: World<A, M>): (World<A, M>, Result<M, string>) {
    if w.blockMetadata.Some? then (w, Ok(w.blockMetadata.value))
    else
      var (node, block) := CallBlockIDFunc(f, w.node);
      match block
      case Err(e) => (w.(node := node), Err(e))
      case Ok(id) =>
        var (fetched, answer) := FetchMetadata(node, id);
        match answer
        case Err(e) => (w.(node := fetched), Err(e))
        case Ok(m) => (World(Some(m), fetched), Ok(m))
  }

  /** `publishPayloadOnTopicsIfSubscribed`: an API look-up, the payload, then its encoding by that API. */
  function PayloadThunk<A, M>(f: BlockIDFunc, encode: (A, M) -> Encoded): Thunk<World<A, M>> {
    (w: World<A, M>) =>
      var api := w.node.apis(w.node.apiCalls);
      var (after, payload) := MetadataFunc(f, w.(node := w.node.(apiCalls := w.node.apiCalls + 1)));
      match payload
      case Err(e) => (after, Err(e))
      case Ok(m) => (after, encode(api, m))
  }

  /** One call of the inclusion publisher; its two answers are about the topic and about its raw form. */
  function PublishInclusion<A, M>(f: BlockIDFunc, json: (A, M) -> Encoded, raw: (A, M) -> Encoded,
                                  node: Node<A, M>, transaction: TransactionID, answer: bool, rawAnswer: bool): Outcome<World<A, M>> {
    TwoPasses(PayloadThunk(f, json), PayloadThunk(f, raw), World(None, node),
              [GetTopicTransactionsIncludedBlockMetadata(transaction)], [answer], [rawAnswer])
  }

  // What one thunk call does to the world.

  function Fetches<A, M>(w: World<A, M>): seq<Result<M, string>> {
    w.node.metadataFetches
  }

  /** Whatever was cached stays; otherwise the call either fails or caches the one answer that it got. */
  lemma ThunkCaches<A, M>(f: BlockIDFunc, encode: (A, M) -> Encoded, w: World<A, M>)
    ensures var (after, result) := PayloadThunk(f, encode)(w);
            var api := w.node.apis(w.node.apiCalls);
            match w.blockMetadata
            case Some(m) => after.blockMetadata == Some(m) && Fetches(after) == Fetches(w) && result == encode(api, m)
            case None =>
              match after.blockMetadata
              case Some(m) => Fetches(after) == Fetches(w) + [Ok(m)] && result == encode(api, m)
              case None => result.Err? && (Fetches(after) == Fetches(w) || exists e :: Fetches(after) == Fetches(w) + [Err(e)])
  {
    var w1 := w.(node := w.node.(apiCalls := w.node.apiCalls + 1));
    var (after, payload) := MetadataFunc(f, w1);
    if w.blockMetadata.None? {
      var (node, block) := CallBlockIDFunc(f, w1.node);
      assert node.metadataFetches == Fetches(w);
      if block.Ok? {
        var (fetched, answer) := FetchMetadata(node, block.value);
        assert fetched.metadataFetches == Fetches(w) + [answer];
      }
    }
  }

  function Successes<M>(fetches: seq<Result<M, string>>): nat {
    if fetches == [] then 0 else (if fetches[|fetches| - 1].Ok? then 1 else 0) + Successes(fetches[..|fetches| - 1])
  }

  lemma SuccessesSnoc<M>(fetches: seq<Result<M, string>>, r: Result<M, string>)
    ensures Successes(fetches + [r]) == Successes(fetches) + (if r.Ok? then 1 else 0)
  {}

  /** Since `before`, at most one fetch succeeded, and then its answer is cached. */
  ghost predicate Cached<A, M>(before: nat, w: World<A, M>) {
    Successes(Fetches(w)) == before + if w.blockMetadata.Some? then 1 else 0
  }

  lemma ThunkKeepsCached<A, M>(f: BlockIDFunc, encode: (A, M) -> Encoded, before: nat, w: World<A, M>)
    requires Cached(before, w)
    ensures Cached(before, PayloadThunk(f, encode)(w).0)
  {
    ThunkCaches(f, encode, w);
    forall r: Result<M, string> {
      SuccessesSnoc(Fetches(w), r);
    }
  }

  lemma {:induction false} PassKeepsCached<A, M>(f: BlockIDFunc, encode: (A, M) -> Encoded, before: nat, w: World<A, M>,
                                                topics: seq<string>, answers: seq<bool>, payload: Option<Hex.Bytes>)
    requires |answers| == |topics| && Cached(before, w)
    ensures Cached(before, Pass(PayloadThunk(f, encode), w, topics, answers, payload).world)
    decreases |topics|
  {
    if topics != [] {
      if answers[0] && payload.None? {
        ThunkKeepsCached(f, encode, before, w);
        var (after, result) := PayloadThunk(f, encode)(w);
        if result.Ok? {
          PassKeepsCached(f, encode, before, after, topics[1..], answers[1..], result.value);
        }
      } else {
        PassKeepsCached(f, encode, before, w, topics[1..], answers[1..], payload);
      }
    }
  }

  // Results.

  /** At most one fetch succeeds in a call, over any answers of the node and of the subscriptions. */
  lemma AtMostOneSuccessfulFetch<A, M>(f: BlockIDFunc, json: (A, M) -> Encoded, raw: (A, M) -> Encoded,
                                       node: Node<A, M>, transaction: TransactionID, answer: bool, rawAnswer: bool)
    ensures Successes(Fetches(PublishInclusion(f, json, raw, node, transaction, answer, rawAnswer).world)) <= Successes(node.metadataFetches) + 1
  {
    var start := World(None, node);
    var before := Successes(node.metadataFetches);
    var topics := [GetTopicTransactionsIncludedBlockMetadata(transaction)];
    PassKeepsCached(f, json, before, start, topics, [answer], None);
    var first := Pass(PayloadThunk(f, json), start, topics, [answer], None);
    PassKeepsCached(f, raw, before, first.world, WithSuffix(topics, RAW), [rawAnswer], None);
  }

  /** One topic: the thunk runs exactly if the topic is wanted. */
  lemma SinglePass<S>(thunk: Thunk<S>, world: S, topic: string, answer: bool)
    ensures Pass(thunk, world, [topic], [answer], None) == OnDemand(thunk, world, if answer then [topic] else [])
  {}

  /** The node's next answers lead to the metadata `m` of the block that a call is about: the given one, or the one that the first
      output of the transaction, its 36 bytes and two zeros, is reported to be in. */
  ghost predicate Leads<A, M>(f: BlockIDFunc, node: Node<A, M>, m: M) {
    match f
    case Known(block) => node.metadataAnswers(|node.metadataFetches|, block) == Ok(m)
    case FromFirstOutput(transaction) =>
      exists block :: node.outputAnswers(|node.outputFetches|, transaction + [0, 0]) == Ok(block)
                   && node.metadataAnswers(|node.metadataFetches|, block) == Ok(m)
  }

  /** Then the metadata function returns and caches `m`. */
  lemma MetadataOfBlock<A, M>(f: BlockIDFunc, w: World<A, M>, m: M)
    requires w.blockMetadata == None && Leads(f, w.node, m)
    ensures var (after, result) := MetadataFunc(f, w);
            && result == Ok(m) && after.blockMetadata == Some(m)
            && after.node.apis == w.node.apis && after.node.apiCalls == w.node.apiCalls
  {
    if f.FromFirstOutput? {
      FirstOutputExact(f.transaction, FirstOutputOf(f.transaction));
    }
  }

  lemma ThunkWithoutOutput<A, M>(transaction: TransactionID, encode: (A, M) -> Encoded, node: Node<A, M>, error: string)
    requires node.outputAnswers(|node.outputFetches|, transaction + [0, 0]) == Err(error)
    ensures var asked := node.(apiCalls := node.apiCalls + 1, outputFetches := node.outputFetches + [transaction + [0, 0]]);
            PayloadThunk(FromFirstOutput(transaction), encode)(World(None, node)) == (World(None, asked), Err(error))
  {
    FirstOutputExact(transaction, FirstOutputOf(transaction));
    var counted, output := node.(apiCalls := node.apiCalls + 1), FirstOutputOf(transaction);
    assert output == transaction + [0, 0];
    var (asked, block) := CallBlockIDFunc(FromFirstOutput(transaction), counted);
    assert asked == node.(apiCalls := node.apiCalls + 1, outputFetches := node.outputFetches + [transaction + [0, 0]]);
    assert block == Err(error);
    assert MetadataFunc(FromFirstOutput(transaction), World(None, counted)) == (World(None, asked), Err(error));
  }

  /** When the node does not know the first output, its error is returned: nothing is sent, and no metadata is fetched. */
  lemma UnknownOutputStopsCall<A, M>(transaction: TransactionID, json: (A, M) -> Encoded, raw: (A, M) -> Encoded,
                                     node: Node<A, M>, error: string, answer: bool, rawAnswer: bool)
    requires node.outputAnswers(|node.outputFetches|, transaction + [0, 0]) == Err(error) && (answer || rawAnswer)
    ensures var out := PublishInclusion(FromFirstOutput(transaction), json, raw, node, transaction, answer, rawAnswer);
            && out.error == Some(error) && out.sends == [] && out.calls == 1
            && out.world.node.metadataFetches == node.metadataFetches
            && out.world.node.outputFetches == node.outputFetches + [transaction + [0, 0]]
  {
    var f, topic := FromFirstOutput(transaction), GetTopicTransactionsIncludedBlockMetadata(transaction);
    ThunkWithoutOutput(transaction, json, node, error);
    ThunkWithoutOutput(transaction, raw, node, error);
    assert WithSuffix([topic], RAW) == [topic + RAW];
    SinglePass(PayloadThunk(f, json), World(None, node), topic, answer);
    SinglePass(PayloadThunk(f, raw), World(None, node), topic + RAW, rawAnswer);
  }

  /** Without a subscriber of the topic or of its raw form, the node is not asked anything. */
  lemma NoFetchWithoutSubscriber<A, M>(f: BlockIDFunc, json: (A, M) -> Encoded, raw: (A, M) -> Encoded,
                                       node: Node<A, M>, transaction: TransactionID)
    ensures PublishInclusion(f, json, raw, node, transaction, false, false) == Outcome(World(None, node), [], 0, None)
  {
    var topic := GetTopicTransactionsIncludedBlockMetadata(transaction);
    assert WithSuffix([topic], RAW) == [topic + RAW];
    SinglePass(PayloadThunk(f, json), World(None, node), topic, false);
    SinglePass(PayloadThunk(f, raw), World(None, node), topic + RAW, false);
  }

  /** The messages of a call: the JSON form on the topic and the raw form on the raw topic, of one and the same metadata. */
  ghost predicate SameMetadata<A(!new), M>(sends: seq<Message>, topic: string, json: (A, M) -> Encoded, raw: (A, M) -> Encoded, m: M) {
    forall i :: 0 <= i < |sends| ==>
      || (sends[i].topic == topic && exists a :: json(a, m) == Ok(sends[i].payload))
      || (sends[i].topic == topic + RAW && exists a :: raw(a, m) == Ok(sends[i].payload))
  }

  /** Nothing, or one message on `topic` with an encoding of `m`. */
  ghost predicate OneForm<A(!new), M>(sends: seq<Message>, topic: string, encode: (A, M) -> Encoded, m: M) {
    sends == [] || (|sends| == 1 && sends[0].topic == topic && exists a :: encode(a, m) == Ok(sends[0].payload))
  }

  lemma OnDemandEncodes<A(!new), M>(f: BlockIDFunc, encode: (A, M) -> Encoded, w: World<A, M>, topic: string, answer: bool)
    ensures var out := OnDemand(PayloadThunk(f, encode), w, if answer then [topic] else []);
            && (out.sends == [] || (out.world.blockMetadata.Some? && OneForm(out.sends, topic, encode, out.world.blockMetadata.value)))
            && (w.blockMetadata.Some? ==> out.world.blockMetadata == w.blockMetadata)
  {
    ThunkCaches(f, encode, w);
  }

  lemma JoinedForms<A(!new), M>(first: seq<Message>, second: seq<Message>, topic: string,
                                json: (A, M) -> Encoded, raw: (A, M) -> Encoded, m: M)
    requires OneForm(first, topic, json, m) && OneForm(second, topic + RAW, raw, m)
    ensures SameMetadata(first, topic, json, raw, m) && SameMetadata(first + second, topic, json, raw, m)
  {}

  /** Even when the node changes its answers between the two passes, both messages encode the same metadata. */
  lemma BothFormsAgree<A(!new), M>(f: BlockIDFunc, json: (A, M) -> Encoded, raw: (A, M) -> Encoded,
                             node: Node<A, M>, transaction: TransactionID, answer: bool, rawAnswer: bool)
    ensures var out := PublishInclusion(f, json, raw, node, transaction, answer, rawAnswer);
            out.sends == [] ||
            (out.world.blockMetadata.Some?
             && SameMetadata(out.sends, GetTopicTransactionsIncludedBlockMetadata(transaction), json, raw, out.world.blockMetadata.value))
  {
    var topic := GetTopicTransactionsIncludedBlockMetadata(transaction);
    var start := World(None, node);
    assert WithSuffix([topic], RAW) == [topic + RAW];
    SinglePass(PayloadThunk(f, json), start, topic, answer);
    OnDemandEncodes(f, json, start, topic, answer);
    var first := Pass(PayloadThunk(f, json), start, [topic], [answer], None);
    SinglePass(PayloadThunk(f, raw), first.world, topic + RAW, rawAnswer);
    OnDemandEncodes(f, raw, first.world, topic + RAW, rawAnswer);
    var second := Pass(PayloadThunk(f, raw), first.world, [topic + RAW], [rawAnswer], None);
    if first.world.blockMetadata.Some? {
      JoinedForms(first.sends, second.sends, topic, json, raw, first.world.blockMetadata.value);
    } else if second.world.blockMetadata.Some? {
      JoinedForms(first.sends, second.sends, topic, json, raw, second.world.blockMetadata.value);
    }
  }
}
