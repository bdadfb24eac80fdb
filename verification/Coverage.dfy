/** Which topics an event reaches: nothing that the event API announces is left out. */
module Coverage {
  import opened Wrappers
  import opened GoStrings
  import opened Hex
  import opened Topics
  import opened Routing
  import opened Outputs
  import opened Events

  // Blocks.

  lemma TagTopicsInjective(a: Bytes, b: Bytes)
    ensures GetTopicBlocksBasicTaggedDataTag(a) == GetTopicBlocksBasicTaggedDataTag(b) ==> a == b
    ensures GetTopicBlocksBasicTransactionTaggedDataTag(a) == GetTopicBlocksBasicTransactionTaggedDataTag(b) ==> a == b
  {
    var s, t := GetTopicBlocksBasicTaggedDataTag(a), GetTopicBlocksBasicTaggedDataTag(b);
    assert s[25..] == Encode(a) && t[25..] == Encode(b);
    var u, v := GetTopicBlocksBasicTransactionTaggedDataTag(a), GetTopicBlocksBasicTransactionTaggedDataTag(b);
    assert u[37..] == Encode(a) && v[37..] == Encode(b);
    if Encode(a) == Encode(b) {
      EncodeInjective(a, b);
    }
  }

  /** The characters that tell the names apart. */
  lemma TagTopicMarks(tag: Bytes)
    ensures var t := GetTopicBlocksBasicTaggedDataTag(tag); |t| >= 27 && t[14] == 'a'
    ensures var t := GetTopicBlocksBasicTransactionTaggedDataTag(tag); |t| >= 39 && t[14] == 'r'
  {
    CharOfFirst("blocks/basic/tagged-data/", Encode(tag), 14);
    CharOfFirst("blocks/basic/transaction/tagged-data/", Encode(tag), 14);
  }

  lemma CharOfFirst(text: string, rest: string, k: nat)
    requires k < |text|
    ensures (text + rest)[k] == text[k]
  {}

  /** Topics of tags differ from the names and, by kind, from each other. */
  lemma TagTopicsAreNoNames(tag: Bytes, carried: Bytes)
    ensures var t, u := GetTopicBlocksBasicTaggedDataTag(tag), GetTopicBlocksBasicTransactionTaggedDataTag(tag);
            !IsBlocksTopic(t) && !IsBlocksTopic(u)
            && t != GetTopicBlocksBasicTransactionTaggedDataTag(carried) && u != GetTopicBlocksBasicTaggedDataTag(carried)
  {
    NameMarks();
    TagTopicMarks(tag);
    TagTopicMarks(carried);
  }

  lemma InNamesOrTag(t: string, names: seq<string>, tags: seq<string>)
    requires !IsBlocksTopic(t) && forall k :: 0 <= k < |names| ==> IsBlocksTopic(names[k])
    ensures t in names + tags <==> t in tags
  {}

  lemma TagOfTaggedData(carried: Bytes, tag: Bytes)
    ensures GetTopicBlocksBasicTaggedDataTag(tag) in BlockTopics(Basic(TaggedData(carried))) <==> carried == tag && |tag| > 0
    ensures GetTopicBlocksBasicTransactionTaggedDataTag(tag) !in BlockTopics(Basic(TaggedData(carried)))
  {
    var names := [BLOCKS, BLOCKS_BASIC, BLOCKS_TAGGED];
    var tags := if |carried| > 0 then [GetTopicBlocksBasicTaggedDataTag(carried)] else [];
    assert BlockTopics(Basic(TaggedData(carried))) == names + tags;
    TagTopicsAreNoNames(tag, carried);
    TagTopicsInjective(tag, carried);
    InNamesOrTag(GetTopicBlocksBasicTaggedDataTag(tag), names, tags);
    InNamesOrTag(GetTopicBlocksBasicTransactionTaggedDataTag(tag), names, tags);
  }

  lemma TagOfTransaction(carried: Bytes, tag: Bytes)
    ensures GetTopicBlocksBasicTransactionTaggedDataTag(tag) in BlockTopics(Basic(SignedTransaction(Some(carried)))) <==> carried == tag && |tag| > 0
    ensures GetTopicBlocksBasicTaggedDataTag(tag) !in BlockTopics(Basic(SignedTransaction(Some(carried))))
  {
    var names := [BLOCKS, BLOCKS_BASIC, BLOCKS_TRANSACTION, BLOCKS_TRANSACTION_TAGGED];
    var tags := if |carried| > 0 then [GetTopicBlocksBasicTransactionTaggedDataTag(carried)] else [];
    assert BlockTopics(Basic(SignedTransaction(Some(carried)))) == names + tags;
    TagTopicsAreNoNames(tag, carried);
    TagTopicsInjective(tag, carried);
    InNamesOrTag(GetTopicBlocksBasicTransactionTaggedDataTag(tag), names, tags);
    InNamesOrTag(GetTopicBlocksBasicTaggedDataTag(tag), names, tags);
  }

  /** A tag topic of plain tagged data is served by exactly the blocks that carry this tag and no transaction. */
  lemma TaggedDataTagServed(body: BlockBody, tag: Bytes)
    ensures GetTopicBlocksBasicTaggedDataTag(tag) in BlockTopics(body) <==> body == Basic(TaggedData(tag)) && |tag| > 0
  {
    TagTopicMarks(tag);
    match body
    case Basic(TaggedData(carried)) => TagOfTaggedData(carried, tag);
    case Basic(SignedTransaction(Some(carried))) => TagOfTransaction(carried, tag);
    case _ =>
  }

  /** A tag topic of transactions is served by exactly the blocks with a transaction that carries this tag. */
  lemma TransactionTagServed(body: BlockBody, tag: Bytes)
    ensures GetTopicBlocksBasicTransactionTaggedDataTag(tag) in BlockTopics(body)
       <==> body == Basic(SignedTransaction(Some(tag))) && |tag| > 0
  {
    TagTopicMarks(tag);
    match body
    case Basic(TaggedData(carried)) => TagOfTaggedData(carried, tag);
    case Basic(SignedTransaction(Some(carried))) => TagOfTransaction(carried, tag);
    case _ =>
  }

  lemma NameMarks()
    ensures |BLOCKS| == 6 && |BLOCKS_BASIC| == 12 && |BLOCKS_VALIDATION| == 17 && |BLOCKS_TRANSACTION| == 24
    ensures |BLOCKS_TRANSACTION_TAGGED| == 36 && |BLOCKS_TAGGED| == 24
    ensures BLOCKS_TAGGED[14] == 'a' && BLOCKS_TRANSACTION[14] == 'r'
  {}

  // Outputs.

  // Which topics an event concerns, without its publish calls.

  predicate ConcernsPayload(payload: Payload, u: string) {
    match payload
    case SignedTransaction(None) => u == BLOCKS_TRANSACTION
    case SignedTransaction(Some(tag)) =>
      u == BLOCKS_TRANSACTION || u == BLOCKS_TRANSACTION_TAGGED || (tag != [] && u == GetTopicBlocksBasicTransactionTaggedDataTag(tag))
    case TaggedData(tag) => u == BLOCKS_TAGGED || (tag != [] && u == GetTopicBlocksBasicTaggedDataTag(tag))
    case OtherPayload => false
  }

  predicate ConcernsBlock(body: BlockBody, u: string) {
    || u == BLOCKS
    || (body.Validation? && u == BLOCKS_VALIDATION)
    || (body.Basic? && (u == BLOCKS_BASIC || ConcernsPayload(body.payload, u)))
  }

  /** The topic of a condition that the output has with this address, or of any condition if some condition has it. */
  predicate UnlockedBy(c: Conditions, a: string, u: string) {
    || (u == Named("address", a) && c.address == Some(a))
    || (u == Named("storage-return", a) && c.storageReturn == Some(a))
    || (u == Named("expiration", a) && c.expiration == Some(a))
    || (u == Named("state-controller", a) && c.stateController == Some(a))
    || (u == Named("governor", a) && c.governor == Some(a))
    || (u == Named("immutable-account", a) && c.immutableAccount == Some(a))
    || (u == Named("+", a) && Uses(c, a))
  }

  ghost predicate ConcernsUnlock(o: Output, u: string) {
    exists a :: UnlockedBy(o.conditions, a, u)
  }

  /** The topics of the output itself. */
  ghost predicate IsTopicOf(codec: Codec, o: Output, u: string) {
    u == GetTopicOutput(o.id) || u in GetChainTopicsForOutput(codec, o.id, o.chain) || ConcernsUnlock(o, u)
  }

  /** An unspent first output tells of the block of its transaction. */
  predicate TellsOfBlock(o: Output, u: string) {
    !o.spent && IndexOf(o.id) == 0 && u == GetTopicTransactionsIncludedBlockMetadata(TransactionOf(o.id))
  }

  /** A created first output tells of its transaction. */
  predicate TellsOfTransaction(o: Output, u: string) {
    IndexOf(o.id) == 0 && u == GetTopicTransactionMetadata(TransactionOf(o.id))
  }

  ghost function Tally(outputs: seq<Output>, f: Output -> bool): nat {
    if outputs == [] then 0 else (if f(outputs[0]) then 1 else 0) + Tally(outputs[1..], f)
  }

  function One(b: bool): nat {
    if b then 1 else 0
  }

  /** How many calls on a topic an event is worth: one for a block or a state of a block; for ledger events one for each output whose
      topic it is, one for each output that tells of its block there, and those that announce a transaction there. */
  ghost function Due(codec: Codec, e: Event, u: string): nat {
    match e
    case BlockEvent(body) => One(ConcernsBlock(body, u))
    case AcceptedBlockEvent(id) => One(u == METADATA_ACCEPTED || u == GetTopicBlockMetadata(id))
    case ConfirmedBlockEvent(id) => One(u == METADATA_CONFIRMED || u == GetTopicBlockMetadata(id))
    case AcceptedTransactionEvent(transaction, consumed, created) =>
      Tally(consumed + created, o => IsTopicOf(codec, o, u)) + Tally(consumed + created, o => TellsOfBlock(o, u))
      + One(u == GetTopicTransactionMetadata(transaction))
    case LedgerUpdateEvent(consumed, created) =>
      Tally(consumed + created, o => IsTopicOf(codec, o, u)) + Tally(consumed + created, o => TellsOfBlock(o, u))
      + Tally(created, o => TellsOfTransaction(o, u))
  }

  /** The number of calls on the topic. */
  function CallsOn(calls: seq<seq<string>>, u: string): nat {
    if calls == [] then 0 else One(u in calls[0]) + CallsOn(calls[1..], u)
  }

  lemma {:induction false} CallsOnConcat(a: seq<seq<string>>, b: seq<seq<string>>, u: string)
    ensures CallsOn(a + b, u) == CallsOn(a, u) + CallsOn(b, u)
  {
    if a == [] {
      assert a + b == b;
    } else {
      assert (a + b)[1..] == a[1..] + b;
      CallsOnConcat(a[1..], b, u);
    }
  }

  lemma CallsOnOne(call: seq<string>, u: string)
    ensures CallsOn([call], u) == One(u in call)
  {
    assert [call][1..] == [];
  }

  lemma {:induction false} TallyConcat(a: seq<Output>, b: seq<Output>, f: Output -> bool)
    ensures Tally(a + b, f) == Tally(a, f) + Tally(b, f)
  {
    if a == [] {
      assert a + b == b;
    } else {
      assert (a + b)[1..] == a[1..] + b;
      TallyConcat(a[1..], b, f);
    }
  }

  lemma UnlockTopicsCovered(o: Output, u: string)
    requires ValidOutput(o)
    ensures u in UnlockTopics(o.conditions, o.order) <==> ConcernsUnlock(o, u)
  {
    if u in UnlockTopics(o.conditions, o.order) {
      var unlocks := Present(o.conditions) + AnyOf(o.order);
      var i :| 0 <= i < |unlocks| && TopicsOf(unlocks)[i] == u;
      UnlockTopicOfField(o.conditions, o.order, unlocks[i].0, unlocks[i].1);
      FieldUnlocks(o.conditions, unlocks[i].0, unlocks[i].1);
    }
    forall a | UnlockedBy(o.conditions, a, u)
      ensures u in UnlockTopics(o.conditions, o.order)
    {
      UnlockFields(o.conditions, o.order, a);
    }
  }

  lemma FieldUnlocks(c: Conditions, condition: Condition, a: string)
    requires if condition == Any then Uses(c, a) else Field(c, condition) == Some(a)
    ensures UnlockedBy(c, a, TopicOf((condition, a)))
  {
    assert TopicOf((condition, a)) == Named(condition.Name(), a);
  }

  lemma OutputTopicsExact(codec: Codec, o: Output, u: string)
    requires ValidOutput(o)
    ensures u in OutputTopics(codec, o, true) <==> IsTopicOf(codec, o, u)
  {
    UnlockTopicsCovered(o, u);
  }

  lemma OutputCallsCounted(codec: Codec, o: Output, u: string)
    requires ValidOutput(o)
    ensures CallsOn(OutputCalls(codec, o), u) == One(IsTopicOf(codec, o, u)) + One(TellsOfBlock(o, u))
  {
    var announced := [GetTopicTransactionsIncludedBlockMetadata(TransactionOf(o.id))];
    OutputTopicsExact(codec, o, u);
    CallsOnOne(announced, u);
    CallsOnOne(OutputTopics(codec, o, true), u);
    CallsOnConcat(if !o.spent && IndexOf(o.id) == 0 then [announced] else [], [OutputTopics(codec, o, true)], u);
  }

  lemma {:induction false} OutputsCallsCounted(codec: Codec, outputs: seq<Output>, u: string)
    requires ValidOutputs(outputs)
    ensures CallsOn(OutputsCalls(codec, outputs), u)
         == Tally(outputs, o => IsTopicOf(codec, o, u)) + Tally(outputs, o => TellsOfBlock(o, u))
  {
    if outputs != [] {
      OutputCallsCounted(codec, outputs[0], u);
      OutputsCallsCounted(codec, outputs[1..], u);
      CallsOnConcat(OutputCalls(codec, outputs[0]), OutputsCalls(codec, outputs[1..]), u);
    }
  }

  lemma CreatedOutputCallsCounted(codec: Codec, o: Output, u: string)
    requires ValidOutput(o)
    ensures CallsOn(CreatedOutputCalls(codec, o), u) == One(IsTopicOf(codec, o, u)) + One(TellsOfBlock(o, u)) + One(TellsOfTransaction(o, u))
  {
    var announced := [GetTopicTransactionMetadata(TransactionOf(o.id))];
    OutputCallsCounted(codec, o, u);
    CallsOnOne(announced, u);
    CallsOnConcat(OutputCalls(codec, o), if IndexOf(o.id) == 0 then [announced] else [], u);
  }

  lemma {:induction false} CreatedCallsCounted(codec: Codec, outputs: seq<Output>, u: string)
    requires ValidOutputs(outputs)
    ensures CallsOn(CreatedCalls(codec, outputs), u)
         == Tally(outputs, o => IsTopicOf(codec, o, u)) + Tally(outputs, o => TellsOfBlock(o, u)) + Tally(outputs, o => TellsOfTransaction(o, u))
  {
    if outputs != [] {
      CreatedOutputCallsCounted(codec, outputs[0], u);
      CreatedCallsCounted(codec, outputs[1..], u);
      CallsOnConcat(CreatedOutputCalls(codec, outputs[0]), CreatedCalls(codec, outputs[1..]), u);
    }
  }

  lemma BlockTopicsExact(body: BlockBody, u: string)
    ensures u in BlockTopics(body) <==> ConcernsBlock(body, u)
  {}

  /** On each topic an event makes as many publish calls as it is worth. */
  lemma CallsAreDue(codec: Codec, e: Event, u: string)
    requires Valid(e)
    ensures CallsOn(EventCalls(codec, e), u) == Due(codec, e, u)
  {
    match e
    case BlockEvent(body) =>
      BlockTopicsExact(body, u);
      CallsOnOne(BlockTopics(body), u);
    case AcceptedBlockEvent(id) => CallsOnOne([METADATA_ACCEPTED, GetTopicBlockMetadata(id)], u);
    case ConfirmedBlockEvent(id) => CallsOnOne([METADATA_CONFIRMED, GetTopicBlockMetadata(id)], u);
    case AcceptedTransactionEvent(transaction, consumed, created) =>
      var announced := [GetTopicTransactionMetadata(transaction)];
      OutputsCallsCounted(codec, consumed, u);
      OutputsCallsCounted(codec, created, u);
      CallsOnOne(announced, u);
      CallsOnConcat(OutputsCalls(codec, consumed), OutputsCalls(codec, created), u);
      CallsOnConcat(OutputsCalls(codec, consumed) + OutputsCalls(codec, created), [announced], u);
      TallyConcat(consumed, created, o => IsTopicOf(codec, o, u));
      TallyConcat(consumed, created, o => TellsOfBlock(o, u));
    case LedgerUpdateEvent(consumed, created) =>
      OutputsCallsCounted(codec, consumed, u);
      CreatedCallsCounted(codec, created, u);
      CallsOnConcat(OutputsCalls(codec, consumed), CreatedCalls(codec, created), u);
      TallyConcat(consumed, created, o => IsTopicOf(codec, o, u));
      TallyConcat(consumed, created, o => TellsOfBlock(o, u));
  }

  function ConsumedBy(e: Event): seq<Output> {
    match e
    case AcceptedTransactionEvent(_, consumed, _) => consumed
    case LedgerUpdateEvent(consumed, _) => consumed
    case _ => []
  }

  /** The calls of a ledger event begin with those for the consumed outputs, and an accepted transaction is announced last. */
  lemma ConsumedComeFirst(codec: Codec, e: Event)
    requires Valid(e) && (e.AcceptedTransactionEvent? || e.LedgerUpdateEvent?)
    ensures exists n :: 0 <= n <= |EventCalls(codec, e)| && forall u ::
              CallsOn(EventCalls(codec, e)[..n], u) == Tally(ConsumedBy(e), o => IsTopicOf(codec, o, u)) + Tally(ConsumedBy(e), o => TellsOfBlock(o, u))
    ensures e.AcceptedTransactionEvent? ==>
              var calls := EventCalls(codec, e);
              calls != [] && calls[|calls| - 1] == [GetTopicTransactionMetadata(e.transaction)]
  {
    var first := OutputsCalls(codec, ConsumedBy(e));
    assert EventCalls(codec, e)[..|first|] == first;
    forall u
      ensures CallsOn(first, u) == Tally(ConsumedBy(e), o => IsTopicOf(codec, o, u)) + Tally(ConsumedBy(e), o => TellsOfBlock(o, u))
    {
      OutputsCallsCounted(codec, ConsumedBy(e), u);
    }
  }

  // Which topics an event concerns at all.

  ghost predicate Concerns(codec: Codec, e: Event, u: string) {
    match e
    case BlockEvent(body) => ConcernsBlock(body, u)
    case AcceptedBlockEvent(id) => u == METADATA_ACCEPTED || u == GetTopicBlockMetadata(id)
    case ConfirmedBlockEvent(id) => u == METADATA_CONFIRMED || u == GetTopicBlockMetadata(id)
    case AcceptedTransactionEvent(transaction, consumed, created) =>
      || u == GetTopicTransactionMetadata(transaction)
      || exists o :: o in consumed + created && (IsTopicOf(codec, o, u) || TellsOfBlock(o, u))
    case LedgerUpdateEvent(consumed, created) =>
      || (exists o :: o in consumed + created && (IsTopicOf(codec, o, u) || TellsOfBlock(o, u)))
      || exists o :: o in created && TellsOfTransaction(o, u)
  }

  lemma {:induction false} TallyPositive(outputs: seq<Output>, f: Output -> bool)
    ensures Tally(outputs, f) > 0 <==> exists o :: o in outputs && f(o)
  {
    if outputs != [] {
      TallyPositive(outputs[1..], f);
      assert outputs == [outputs[0]] + outputs[1..];
    }
  }

  lemma DueIsConcern(codec: Codec, e: Event, u: string)
    ensures Due(codec, e, u) > 0 <==> Concerns(codec, e, u)
  {
    if e.AcceptedTransactionEvent? || e.LedgerUpdateEvent? {
      TallyPositive(e.consumed + e.created, o => IsTopicOf(codec, o, u));
      TallyPositive(e.consumed + e.created, o => TellsOfBlock(o, u));
      TallyPositive(e.created, o => TellsOfTransaction(o, u));
    }
  }

  lemma {:induction false} PublishedIsCounted(calls: seq<seq<string>>, u: string)
    ensures CallsOn(calls, u) > 0 <==> exists i :: 0 <= i < |calls| && u in calls[i]
  {
    if calls != [] {
      PublishedIsCounted(calls[1..], u);
      assert forall i :: 1 <= i < |calls| ==> calls[i] == calls[1..][i - 1];
      if u !in calls[0] && CallsOn(calls, u) > 0 {
        var i :| 0 <= i < |calls[1..]| && u in calls[1..][i];
        assert u in calls[i + 1];
      }
    }
  }

  /** An event is published on exactly the topics that it concerns. */
  lemma EventTopicsExact(codec: Codec, e: Event, u: string)
    requires Valid(e)
    ensures (exists i :: 0 <= i < |EventCalls(codec, e)| && u in EventCalls(codec, e)[i]) <==> Concerns(codec, e, u)
  {
    CallsAreDue(codec, e, u);
    DueIsConcern(codec, e, u);
    PublishedIsCounted(EventCalls(codec, e), u);
  }
}
