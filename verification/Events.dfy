/** What the upstream streams report, and the topics that each report is published on (pkg/mqtt/server.go, pkg/mqtt/publish.go). */
module Events {
  import opened Wrappers
  import opened GoStrings
  import opened Hex
  import opened Topics
  import opened Routing
  import opened Outputs

  /** The payload of a basic block, as far as topics depend on it; a signed transaction may carry tagged data. */
  datatype Payload = SignedTransaction(taggedData: Option<Bytes>) | TaggedData(tag: Bytes) | OtherPayload

  datatype BlockBody = Basic(payload: Payload) | Validation | UnknownBody

  /** An output of the ledger; `order` is the order in which Go happens to visit its addresses. */
  datatype Output = Output(id: OutputID, spent: bool, chain: Chain, conditions: Conditions, order: seq<string>)

  datatype Event =
    | BlockEvent(body: BlockBody)
    | AcceptedBlockEvent(block: BlockID)
    | ConfirmedBlockEvent(block: BlockID)
    | AcceptedTransactionEvent(transaction: TransactionID, consumed: seq<Output>, created: seq<Output>)
    | LedgerUpdateEvent(consumed: seq<Output>, created: seq<Output>)

  function StreamOf(e: Event): Stream {
    match e
    case BlockEvent(_) => Blocks
    case AcceptedBlockEvent(_) => AcceptedBlocks
    case ConfirmedBlockEvent(_) => ConfirmedBlocks
    case AcceptedTransactionEvent(_, _, _) => AcceptedTransactions
    case LedgerUpdateEvent(_, _) => LedgerUpdates
  }

  /** Blocks have identifiers that are not zero, and visiting orders are orders of the addresses. */
  ghost predicate Valid(e: Event) {
    match e
    case BlockEvent(_) => true
    case AcceptedBlockEvent(id) => id != Zero(36)
    case ConfirmedBlockEvent(id) => id != Zero(36)
    case AcceptedTransactionEvent(_, consumed, created) => ValidOutputs(consumed) && ValidOutputs(created)
    case LedgerUpdateEvent(consumed, created) => ValidOutputs(consumed) && ValidOutputs(created)
  }

  ghost predicate ValidOutput(o: Output) {
    IsOrder(o.order, AddressesOf(Present(o.conditions)))
  }

  ghost predicate ValidOutputs(outputs: seq<Output>) {
    forall o :: o in outputs ==> ValidOutput(o)
  }

  function BlockTopicsForBasicBlock(payload: Payload): seq<string> {
    [BLOCKS_BASIC] +
    match payload
    case SignedTransaction(None) => [BLOCKS_TRANSACTION]
    case SignedTransaction(Some(tag)) =>
      [BLOCKS_TRANSACTION, BLOCKS_TRANSACTION_TAGGED] + (if |tag| > 0 then [GetTopicBlocksBasicTransactionTaggedDataTag(tag)] else [])
    case TaggedData(tag) => [BLOCKS_TAGGED] + (if |tag| > 0 then [GetTopicBlocksBasicTaggedDataTag(tag)] else [])
    case OtherPayload => []
  }

  function BlockTopics(body: BlockBody): seq<string> {
    [BLOCKS] +
    match body
    case Basic(payload) => BlockTopicsForBasicBlock(payload)
    case Validation => [BLOCKS_VALIDATION]
    case UnknownBody => []
  }

  function OutputTopics(codec: Codec, o: Output, publishOnAllTopics: bool): seq<string> {
    [GetTopicOutput(o.id)]
    + if publishOnAllTopics then GetChainTopicsForOutput(codec, o.id, o.chain) + UnlockTopics(o.conditions, o.order) else []
  }

  /** The publish calls, each with its topics, that `publishOutputIfSubscribed` makes on all topics. */
  function OutputCalls(codec: Codec, o: Output): seq<seq<string>> {
    (if !o.spent && IndexOf(o.id) == 0 then [[GetTopicTransactionsIncludedBlockMetadata(TransactionOf(o.id))]] else [])
    + [OutputTopics(codec, o, true)]
  }

  function OutputsCalls(codec: Codec, outputs: seq<Output>): seq<seq<string>> {
    if outputs == [] then [] else OutputCalls(codec, outputs[0]) + OutputsCalls(codec, outputs[1..])
  }

  /** A created output of a ledger update also announces the transaction that it is the first output of. */
  function CreatedOutputCalls(codec: Codec, o: Output): seq<seq<string>> {
    OutputCalls(codec, o) + if IndexOf(o.id) == 0 then [[GetTopicTransactionMetadata(TransactionOf(o.id))]] else []
  }

  function CreatedCalls(codec: Codec, outputs: seq<Output>): seq<seq<string>> {
    if outputs == [] then [] else CreatedOutputCalls(codec, outputs[0]) + CreatedCalls(codec, outputs[1..])
  }

  /** The publish calls that the listener of the event's stream makes, in order. */
  function EventCalls(codec: Codec, e: Event): seq<seq<string>> {
    match e
    case BlockEvent(body) => [BlockTopics(body)]
    case AcceptedBlockEvent(id) => [[METADATA_ACCEPTED, GetTopicBlockMetadata(id)]]
    case ConfirmedBlockEvent(id) => [[METADATA_CONFIRMED, GetTopicBlockMetadata(id)]]
    case AcceptedTransactionEvent(transaction, consumed, created) =>
      OutputsCalls(codec, consumed) + OutputsCalls(codec, created) + [[GetTopicTransactionMetadata(transaction)]]
    case LedgerUpdateEvent(consumed, created) => OutputsCalls(codec, consumed) + CreatedCalls(codec, created)
  }

  // Routing completeness: what a listener publishes is routed to its stream.

  /** Subscribing to the topic or to its raw form starts the stream. */
  predicate Routed(s: Stream, topic: string) {
    s in StartRoute(topic) && s in StartRoute(topic + RAW)
  }

  lemma RoutedTrimmed(s: Stream, topic: string)
    requires s in StartTrimmed(topic) && s in StartTrimmed(TrimSuffix(topic, RAW))
    ensures Routed(s, topic)
  {}

  lemma LastIsHex(prefix: string, b: Bytes)
    ensures var t := prefix + Encode(b); t[|t| - 1] != 'w' && t[|t| - 1] == Encode(b)[|Encode(b)| - 1]
  {}

  lemma BlocksNamesRouted(topic: string)
    requires IsBlocksTopic(topic)
    ensures Routed(Blocks, topic)
  {}

  /** A topic that starts with `blocks/basic/` and holds `tagged-data/`. */
  lemma TaggedRouted(topic: string)
    requires IsTaggedBlocksTopic(topic) && topic[|topic| - 1] != 'w'
    ensures Routed(Blocks, topic)
  {
    assert topic[0] == 'b' && topic[5] == 's';
    assert COMMITMENTS_LATEST[0] == 'c' && COMMITMENTS_FINALIZED[0] == 'c';
    assert METADATA_ACCEPTED[5] == '-' && METADATA_CONFIRMED[5] == '-';
    NotRaw(topic);
    RoutedTrimmed(Blocks, topic);
  }

  lemma ContainsBetween(pre: string, sub: string, post: string)
    ensures Contains(pre + sub + post, sub)
  {
    assert (pre + sub + post)[|pre|..] == sub + post;
    IndexIsFirst(pre + sub + post, sub, |pre|);
  }

  lemma TagRouted(first: string, tag: Bytes)
    requires HasPrefix(first, "blocks/basic/")
    ensures Routed(Blocks, first + "tagged-data/" + Encode(tag))
  {
    var t := first + "tagged-data/" + Encode(tag);
    ContainsBetween(first, "tagged-data/", Encode(tag));
    LastIsHex(first + "tagged-data/", tag);
    assert HasPrefix(t, "blocks/basic/");
    TaggedRouted(t);
  }

  lemma TaggedDataTagRouted(tag: Bytes)
    ensures Routed(Blocks, GetTopicBlocksBasicTaggedDataTag(tag))
  {
    assert "blocks/basic/tagged-data/" == "blocks/basic/" + "tagged-data/";
    TagRouted("blocks/basic/", tag);
  }

  lemma TransactionTagRouted(tag: Bytes)
    ensures Routed(Blocks, GetTopicBlocksBasicTransactionTaggedDataTag(tag))
  {
    assert "blocks/basic/transaction/tagged-data/" == "blocks/basic/transaction/" + "tagged-data/";
    TagRouted("blocks/basic/transaction/", tag);
  }

  lemma StateNamesRouted()
    ensures Routed(AcceptedBlocks, METADATA_ACCEPTED) && Routed(ConfirmedBlocks, METADATA_CONFIRMED)
  {}

  lemma BlockMetadataStarts(t: string)
    requires HasPrefix(t, "block-metadata/") && BlockIDFromBlockMetadataTopic(t) != Zero(36)
    ensures StartTrimmed(t) == [AcceptedBlocks, ConfirmedBlocks]
  {
    StatesAreNoBlocks();
    BlockMetadataIsNoBlocksTopic(t);
  }

  lemma BlockMetadataRouted(id: BlockID)
    requires id != Zero(36)
    ensures Routed(AcceptedBlocks, GetTopicBlockMetadata(id)) && Routed(ConfirmedBlocks, GetTopicBlockMetadata(id))
  {
    var t := GetTopicBlockMetadata(id);
    BlockRoundTrip(id);
    LastIsHex("block-metadata/", id);
    NotRaw(t);
    BlockMetadataStarts(t);
    RoutedTrimmed(AcceptedBlocks, t);
    RoutedTrimmed(ConfirmedBlocks, t);
  }

  lemma LedgerShapeRouted(topic: string)
    requires IsLedgerTopic(topic)
    ensures StartTrimmed(topic) == [AcceptedTransactions, LedgerUpdates]
  {
    LedgerTopicIsNothingElse(topic);
  }

  /** Behind a ledger prefix, at least four more characters keep the prefix when a raw suffix is trimmed. */
  lemma LedgerRouted(prefix: string, topic: string)
    requires prefix == "outputs/" || prefix == "transactions/" || prefix == "transaction-metadata/"
    requires HasPrefix(topic, prefix) && |topic| >= |prefix| + 4
    ensures Routed(AcceptedTransactions, topic) && Routed(LedgerUpdates, topic)
  {
    var trimmed := TrimSuffix(topic, RAW);
    assert HasPrefix(trimmed, prefix);
    LedgerShapeRouted(topic);
    LedgerShapeRouted(trimmed);
    RoutedTrimmed(AcceptedTransactions, topic);
    RoutedTrimmed(LedgerUpdates, topic);
  }

  lemma OutputTopicRouted(id: OutputID)
    ensures Routed(AcceptedTransactions, GetTopicOutput(id)) && Routed(LedgerUpdates, GetTopicOutput(id))
  {
    LedgerRouted("outputs/", GetTopicOutput(id));
  }

  lemma TransactionTopicsRouted(id: TransactionID)
    ensures Routed(AcceptedTransactions, GetTopicTransactionMetadata(id)) && Routed(LedgerUpdates, GetTopicTransactionMetadata(id))
    ensures Routed(AcceptedTransactions, GetTopicTransactionsIncludedBlockMetadata(id))
    ensures Routed(LedgerUpdates, GetTopicTransactionsIncludedBlockMetadata(id))
  {
    LedgerRouted("transaction-metadata/", GetTopicTransactionMetadata(id));
    LedgerRouted("transactions/", GetTopicTransactionsIncludedBlockMetadata(id));
  }

  /** `outputs/`, a word and a slash, then anything. */
  predicate IsNestedOutputTopic(topic: string) {
    HasPrefix(topic, "outputs/") && |topic| >= 12
  }

  lemma ChainTopicsNested(codec: Codec, id: OutputID, chain: Chain)
    ensures forall t :: t in GetChainTopicsForOutput(codec, id, chain) ==> IsNestedOutputTopic(t)
  {}

  lemma UnlockTopicsNested(unlocks: seq<Unlock>)
    ensures forall t :: t in TopicsOf(unlocks) ==> IsNestedOutputTopic(t)
  {}

  /** Every topic of every call is routed to the stream. */
  ghost predicate AllRouted(s: Stream, calls: seq<seq<string>>) {
    forall i, t :: 0 <= i < |calls| && t in calls[i] ==> Routed(s, t)
  }

  lemma AllRoutedConcat(s: Stream, a: seq<seq<string>>, b: seq<seq<string>>)
    requires AllRouted(s, a) && AllRouted(s, b)
    ensures AllRouted(s, a + b)
  {}

  lemma OutputTopicsRouted(s: Stream, codec: Codec, o: Output)
    requires s.AcceptedTransactions? || s.LedgerUpdates?
    ensures forall t :: t in OutputTopics(codec, o, true) ==> Routed(s, t)
  {
    forall t | t in OutputTopics(codec, o, true)
      ensures Routed(s, t)
    {
      OutputTopicRouted(o.id);
      if t != GetTopicOutput(o.id) {
        ChainTopicsNested(codec, o.id, o.chain);
        UnlockTopicsNested(Present(o.conditions) + AnyOf(o.order));
        LedgerRouted("outputs/", t);
      }
    }
  }

  lemma OutputCallsRouted(s: Stream, codec: Codec, o: Output)
    requires s.AcceptedTransactions? || s.LedgerUpdates?
    ensures AllRouted(s, OutputCalls(codec, o))
  {
    OutputTopicsRouted(s, codec, o);
    TransactionTopicsRouted(TransactionOf(o.id));
  }

  lemma {:induction false} OutputsCallsRouted(s: Stream, codec: Codec, outputs: seq<Output>)
    requires s.AcceptedTransactions? || s.LedgerUpdates?
    ensures AllRouted(s, OutputsCalls(codec, outputs))
  {
    if outputs != [] {
      OutputCallsRouted(s, codec, outputs[0]);
      OutputsCallsRouted(s, codec, outputs[1..]);
      AllRoutedConcat(s, OutputCalls(codec, outputs[0]), OutputsCalls(codec, outputs[1..]));
    }
  }

  lemma {:induction false} CreatedCallsRouted(s: Stream, codec: Codec, outputs: seq<Output>)
    requires s.AcceptedTransactions? || s.LedgerUpdates?
    ensures AllRouted(s, CreatedCalls(codec, outputs))
  {
    if outputs != [] {
      OutputCallsRouted(s, codec, outputs[0]);
      TransactionTopicsRouted(TransactionOf(outputs[0].id));
      var announced := if IndexOf(outputs[0].id) == 0 then [[GetTopicTransactionMetadata(TransactionOf(outputs[0].id))]] else [];
      AllRoutedConcat(s, OutputCalls(codec, outputs[0]), announced);
      CreatedCallsRouted(s, codec, outputs[1..]);
      AllRoutedConcat(s, OutputCalls(codec, outputs[0]) + announced, CreatedCalls(codec, outputs[1..]));
    }
  }

  lemma BlockTopicsRouted(body: BlockBody)
    ensures forall t :: t in BlockTopics(body) ==> Routed(Blocks, t)
  {
    forall t | t in BlockTopics(body)
      ensures Routed(Blocks, t)
    {
      if IsBlocksTopic(t) {
        BlocksNamesRouted(t);
      } else {
        var tag := if body.payload.TaggedData? then body.payload.tag else body.payload.taggedData.value;
        TaggedDataTagRouted(tag);
        TransactionTagRouted(tag);
      }
    }
  }

  lemma EventCallsRouted(codec: Codec, e: Event)
    requires Valid(e)
    ensures AllRouted(StreamOf(e), EventCalls(codec, e))
  {
    match e
    case BlockEvent(body) => BlockTopicsRouted(body);
    case AcceptedBlockEvent(id) =>
      StateNamesRouted();
      BlockMetadataRouted(id);
    case ConfirmedBlockEvent(id) =>
      StateNamesRouted();
      BlockMetadataRouted(id);
    case AcceptedTransactionEvent(transaction, consumed, created) =>
      OutputsCallsRouted(AcceptedTransactions, codec, consumed);
      OutputsCallsRouted(AcceptedTransactions, codec, created);
      TransactionTopicsRouted(transaction);
      AllRoutedConcat(AcceptedTransactions, OutputsCalls(codec, consumed), OutputsCalls(codec, created));
      AllRoutedConcat(AcceptedTransactions, OutputsCalls(codec, consumed) + OutputsCalls(codec, created),
                      [[GetTopicTransactionMetadata(transaction)]]);
    case LedgerUpdateEvent(consumed, created) =>
      OutputsCallsRouted(LedgerUpdates, codec, consumed);
      CreatedCallsRouted(LedgerUpdates, codec, created);
      AllRoutedConcat(LedgerUpdates, OutputsCalls(codec, consumed), CreatedCalls(codec, created));
  }

  /** Every topic that a listener publishes on, plain or raw, is routed to the listener's stream when it is subscribed to. */
  lemma RoutingIsComplete(codec: Codec, e: Event, i: nat, t: string)
    requires Valid(e) && i < |EventCalls(codec, e)| && t in EventCalls(codec, e)[i]
    ensures StreamOf(e) in StartRoute(t) && StreamOf(e) in StartRoute(t + RAW)
  {
    EventCallsRouted(codec, e);
    RoutedInCall(StreamOf(e), EventCalls(codec, e), i, t);
  }

  lemma RoutedInCall(s: Stream, calls: seq<seq<string>>, i: nat, t: string)
    requires AllRouted(s, calls) && i < |calls| && t in calls[i]
    ensures s in StartRoute(t) && s in StartRoute(t + RAW)
  {
    assert Routed(s, t);
  }
}
