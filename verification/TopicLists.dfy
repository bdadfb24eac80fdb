/** No call publishes twice on a topic: the topics of a call and their raw forms all differ. */
module TopicLists {
  import opened Wrappers
  import opened GoStrings
  import opened Hex
  import opened Topics
  import opened Outputs
  import opened Events

  ghost predicate DistinctWithRaw(topics: seq<string>) {
    NoDup(topics) && forall t, u :: t in topics && u in topics ==> t + RAW != u
  }

  /** Topics that do not end like a raw form. */
  predicate Plain(topics: seq<string>) {
    forall i :: 0 <= i < |topics| ==> topics[i] != [] && topics[i][|topics[i]| - 1] != 'w'
  }

  lemma PlainTopics(topics: seq<string>)
    requires NoDup(topics) && Plain(topics)
    ensures DistinctWithRaw(topics)
  {}

  predicate Growing(topics: seq<string>) {
    forall i, j :: 0 <= i < j < |topics| ==> |topics[i]| < |topics[j]|
  }

  lemma TransactionTopicsGrow(tag: Bytes)
    ensures Growing(BlockTopicsForBasicBlock(SignedTransaction(Some(tag)))) && Plain(BlockTopicsForBasicBlock(SignedTransaction(Some(tag))))
  {}

  lemma TaggedTopicsGrow(tag: Bytes)
    ensures Growing(BlockTopicsForBasicBlock(TaggedData(tag))) && Plain(BlockTopicsForBasicBlock(TaggedData(tag)))
  {}

  lemma BasicTopicsGrow(payload: Payload)
    ensures Growing(BlockTopicsForBasicBlock(payload)) && Plain(BlockTopicsForBasicBlock(payload))
  {
    match payload
    case SignedTransaction(None) =>
    case SignedTransaction(Some(tag)) => TransactionTopicsGrow(tag);
    case TaggedData(tag) => TaggedTopicsGrow(tag);
    case OtherPayload =>
  }

  lemma GrowingBehind(first: string, rest: seq<string>)
    requires Growing(rest) && Plain(rest) && rest != [] && |first| < |rest[0]| && Plain([first])
    ensures Growing([first] + rest) && Plain([first] + rest)
  {}

  lemma BlockTopicsDistinct(body: BlockBody)
    ensures DistinctWithRaw(BlockTopics(body))
  {
    match body {
      case Basic(payload) =>
        BasicTopicsGrow(payload);
        GrowingBehind(BLOCKS, BlockTopicsForBasicBlock(payload));
      case Validation => GrowingBehind(BLOCKS, [BLOCKS_VALIDATION]);
      case UnknownBody =>
    }
    assert Growing(BlockTopics(body)) && Plain(BlockTopics(body));
    PlainTopics(BlockTopics(body));
  }

  lemma MetadataTopicsDistinct(id: BlockID)
    ensures DistinctWithRaw([METADATA_ACCEPTED, GetTopicBlockMetadata(id)])
    ensures DistinctWithRaw([METADATA_CONFIRMED, GetTopicBlockMetadata(id)])
  {}

  lemma SingleTopicDistinct(t: string)
    ensures DistinctWithRaw([t])
  {}

  // Outputs: the ninth character tells the three kinds of topics apart.

  predicate NinthIn(topics: seq<string>, chars: set<char>) {
    forall i :: 0 <= i < |topics| ==> |topics[i]| > 8 && topics[i][8] in chars
  }

  lemma DistinctConcat(a: seq<string>, b: seq<string>, forA: set<char>, forB: set<char>)
    requires DistinctWithRaw(a) && DistinctWithRaw(b) && NinthIn(a, forA) && NinthIn(b, forB) && forA !! forB
    ensures DistinctWithRaw(a + b) && NinthIn(a + b, forA + forB)
  {}

  lemma OutputTopicNinth(id: OutputID)
    ensures NinthIn([GetTopicOutput(id)], {'0'})
  {}

  lemma ChainTopicsNinth(codec: Codec, id: OutputID, chain: Chain)
    ensures NinthIn(GetChainTopicsForOutput(codec, id, chain), {'a', 'f', 'n', 'd'})
    ensures |GetChainTopicsForOutput(codec, id, chain)| <= 1
  {
    ChainTopicCount(codec, id, chain);
  }

  lemma UnlockTopicsNinth(unlocks: seq<Unlock>)
    ensures NinthIn(TopicsOf(unlocks), {'u'})
  {
    forall i | 0 <= i < |unlocks|
      ensures |TopicsOf(unlocks)[i]| > 8 && TopicsOf(unlocks)[i][8] == 'u'
    {
      assert TopicsOf(unlocks)[i] == TopicOf(unlocks[i]);
    }
  }

  /** Addresses hold no slash. */
  ghost predicate SlashFree(unlocks: seq<Unlock>) {
    forall i :: 0 <= i < |unlocks| ==> '/' !in unlocks[i].1
  }

  lemma UnlockTopicsDistinct(unlocks: seq<Unlock>)
    requires NoDup(unlocks) && SlashFree(unlocks)
    ensures DistinctWithRaw(TopicsOf(unlocks))
  {
    TopicsOfNoDup(unlocks);
    forall t, u | t in TopicsOf(unlocks) && u in TopicsOf(unlocks)
      ensures t + RAW != u
    {
      var i :| 0 <= i < |unlocks| && TopicsOf(unlocks)[i] == t;
      var j :| 0 <= j < |unlocks| && TopicsOf(unlocks)[j] == u;
      RawIsNoUnlockTopic(unlocks[i], unlocks[j]);
    }
  }

  lemma RawIsNoUnlockTopic(v: Unlock, w: Unlock)
    requires '/' !in w.1
    ensures TopicOf(v) + RAW != TopicOf(w)
  {
    if TopicOf(v) + RAW == TopicOf(w) {
      var p := "outputs/unlock/";
      assert TopicOf(v) + RAW == p + v.0.Name() + "/" + (v.1 + RAW);
      assert (v.1 + RAW)[|v.1|] == '/';
      SplitAtSlashBehind(p, v.0.Name(), v.1 + RAW, w.0.Name(), w.1);
    }
  }

  /** The assumption about Bech32 texts, for the addresses of an output. */
  ghost predicate AddressesSlashFree(o: Output) {
    forall u :: u in Present(o.conditions) ==> '/' !in u.1
  }

  lemma OwnUnlockTopicsDistinct(o: Output)
    requires ValidOutput(o) && AddressesSlashFree(o)
    ensures DistinctWithRaw(UnlockTopics(o.conditions, o.order))
  {
    PresentRanked(o.conditions);
    AnyRanked(o.order);
    RankedConcat(Present(o.conditions), AnyOf(o.order), 0, 6, 7);
    OrderSlashFree(o);
    UnlockTopicsDistinct(Present(o.conditions) + AnyOf(o.order));
  }

  lemma OutputTopicsDistinct(codec: Codec, o: Output)
    requires ValidOutput(o) && AddressesSlashFree(o)
    ensures DistinctWithRaw(OutputTopics(codec, o, true))
  {
    var own, chain := [GetTopicOutput(o.id)], GetChainTopicsForOutput(codec, o.id, o.chain);
    var unlocks := Present(o.conditions) + AnyOf(o.order);
    SingleTopicDistinct(GetTopicOutput(o.id));
    OutputTopicNinth(o.id);
    ChainTopicsNinth(codec, o.id, o.chain);
    if |chain| == 1 { SingleTopicDistinct(chain[0]); }
    OwnUnlockTopicsDistinct(o);
    UnlockTopicsNinth(unlocks);
    DistinctConcat(chain, TopicsOf(unlocks), {'a', 'f', 'n', 'd'}, {'u'});
    DistinctConcat(own, chain + TopicsOf(unlocks), {'0'}, {'a', 'f', 'n', 'd'} + {'u'});
  }

  lemma OrderSlashFree(o: Output)
    requires ValidOutput(o) && AddressesSlashFree(o)
    ensures SlashFree(Present(o.conditions) + AnyOf(o.order))
  {
    var present, order := Present(o.conditions), o.order;
    forall i | 0 <= i < |order|
      ensures '/' !in order[i]
    {
      assert order[i] in AddressesOf(present);
      var u :| u in present && u.1 == order[i];
    }
  }

  // Every call of every event.

  ghost predicate AllDistinct(calls: seq<seq<string>>) {
    forall i :: 0 <= i < |calls| ==> DistinctWithRaw(calls[i])
  }

  lemma AllDistinctConcat(a: seq<seq<string>>, b: seq<seq<string>>)
    requires AllDistinct(a) && AllDistinct(b)
    ensures AllDistinct(a + b)
  {}

  ghost predicate SlashFreeOutputs(outputs: seq<Output>) {
    forall o :: o in outputs ==> AddressesSlashFree(o)
  }

  ghost predicate SlashFreeEvent(e: Event) {
    match e
    case AcceptedTransactionEvent(_, consumed, created) => SlashFreeOutputs(consumed) && SlashFreeOutputs(created)
    case LedgerUpdateEvent(consumed, created) => SlashFreeOutputs(consumed) && SlashFreeOutputs(created)
    case _ => true
  }

  lemma OutputCallsDistinct(codec: Codec, o: Output)
    requires ValidOutput(o) && AddressesSlashFree(o)
    ensures AllDistinct(OutputCalls(codec, o))
  {
    OutputTopicsDistinct(codec, o);
    SingleTopicDistinct(GetTopicTransactionsIncludedBlockMetadata(TransactionOf(o.id)));
  }

  lemma {:induction false} OutputsCallsDistinct(codec: Codec, outputs: seq<Output>)
    requires ValidOutputs(outputs) && SlashFreeOutputs(outputs)
    ensures AllDistinct(OutputsCalls(codec, outputs))
  {
    if outputs != [] {
      OutputCallsDistinct(codec, outputs[0]);
      OutputsCallsDistinct(codec, outputs[1..]);
      AllDistinctConcat(OutputCalls(codec, outputs[0]), OutputsCalls(codec, outputs[1..]));
    }
  }

  lemma {:induction false} CreatedCallsDistinct(codec: Codec, outputs: seq<Output>)
    requires ValidOutputs(outputs) && SlashFreeOutputs(outputs)
    ensures AllDistinct(CreatedCalls(codec, outputs))
  {
    if outputs != [] {
      var announcement := GetTopicTransactionMetadata(TransactionOf(outputs[0].id));
      var announced := if IndexOf(outputs[0].id) == 0 then [[announcement]] else [];
      OutputCallsDistinct(codec, outputs[0]);
      SingleTopicDistinct(announcement);
      AllDistinctConcat(OutputCalls(codec, outputs[0]), announced);
      CreatedCallsDistinct(codec, outputs[1..]);
      AllDistinctConcat(OutputCalls(codec, outputs[0]) + announced, CreatedCalls(codec, outputs[1..]));
    }
  }

  /** In every publish call that a listener makes, the topics and their raw forms are pairwise different. */
  lemma EventCallsDistinct(codec: Codec, e: Event)
    requires Valid(e) && SlashFreeEvent(e)
    ensures AllDistinct(EventCalls(codec, e))
  {
    match e
    case BlockEvent(body) => BlockTopicsDistinct(body);
    case AcceptedBlockEvent(id) => MetadataTopicsDistinct(id);
    case ConfirmedBlockEvent(id) => MetadataTopicsDistinct(id);
    case AcceptedTransactionEvent(transaction, consumed, created) =>
      OutputsCallsDistinct(codec, consumed);
      OutputsCallsDistinct(codec, created);
      SingleTopicDistinct(GetTopicTransactionMetadata(transaction));
      AllDistinctConcat(OutputsCalls(codec, consumed), OutputsCalls(codec, created));
      AllDistinctConcat(OutputsCalls(codec, consumed) + OutputsCalls(codec, created), [[GetTopicTransactionMetadata(transaction)]]);
    case LedgerUpdateEvent(consumed, created) =>
      OutputsCallsDistinct(codec, consumed);
      CreatedCallsDistinct(codec, created);
      AllDistinctConcat(OutputsCalls(codec, consumed), CreatedCalls(codec, created));
  }
}
