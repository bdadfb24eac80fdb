/** The default list of public topics covers everything that the server publishes (components/mqtt/params.go). */
module PublicTopics {
  import opened Wrappers
  import opened GoStrings
  import opened Hex
  import opened Topics
  import opened Routing
  import opened Outputs
  import opened Events
  import opened TopicLists
  import opened Wildcard
  import opened Access

  const PREFIXES := ["commitments/", "blocks", "transactions/", "block-metadata/", "transaction-metadata/", "outputs/"]

  const DEFAULT_PUBLIC_TOPICS := ["commitments/*", "blocks*", "transactions/*", "block-metadata/*", "transaction-metadata/*", "outputs/*"]

  /** A topic with one of the public prefixes and without a newline. */
  predicate Covered(topic: string) {
    '\n' !in topic && exists k :: 0 <= k < |PREFIXES| && PREFIXES[k] <= topic
  }

  lemma DefaultIsPrefixes(k: nat)
    requires k < |PREFIXES|
    ensures |DEFAULT_PUBLIC_TOPICS| == |PREFIXES| && DEFAULT_PUBLIC_TOPICS[k] == PREFIXES[k] + "*"
  {}

  lemma PrefixesArePlain(k: nat)
    requires k < |PREFIXES|
    ensures '*' !in PREFIXES[k]
    ensures forall c :: c in PREFIXES[k] ==> c < 128 as char && !('A' <= c <= 'Z') && c != '\n'
  {}

  lemma CoveredIsPublic(table: char -> char, topic: string)
    requires IsLowering(table) && Covered(topic)
    ensures MatchesAny(table, DEFAULT_PUBLIC_TOPICS, topic)
  {
    var k: nat :| k < |PREFIXES| && PREFIXES[k] <= topic;
    DefaultIsPrefixes(k);
    PrefixesArePlain(k);
    PrefixIsMatched(table, PREFIXES[k], topic);
    assert MatchesSuffix(DEFAULT_PUBLIC_TOPICS[k], ToLower(table, topic));
  }

  lemma LoweringKeepsOutNewlines(table: char -> char, topic: string)
    requires IsLowering(table) && '\n' !in topic
    ensures '\n' !in ToLower(table, topic)
  {
    assert forall i :: 0 <= i < |topic| ==> topic[i] in topic;
  }

  lemma PrefixIsMatched(table: char -> char, pre: string, topic: string)
    requires IsLowering(table) && pre <= topic && '\n' !in topic && '*' !in pre
    requires forall c :: c in pre ==> c < 128 as char && !('A' <= c <= 'Z')
    ensures MatchesSuffix(pre + "*", ToLower(table, topic))
  {
    var lowered := ToLower(table, topic);
    forall i | 0 <= i < |pre|
      ensures lowered[i] == pre[i]
    {
      assert pre[i] in pre && topic[i] == pre[i];
    }
    assert pre <= lowered;
    LoweringKeepsOutNewlines(table, topic);
    PrefixPattern(pre, lowered);
    assert lowered[0..] == lowered;
  }

  /** Text with one of the six public beginnings and without a newline. */
  predicate IsPublicText(s: string) {
    '\n' !in s && ("commitments/" <= s || "blocks" <= s || "transactions/" <= s || "block-metadata/" <= s
                    || "transaction-metadata/" <= s || "outputs/" <= s)
  }

  lemma PublicTextExact(s: string)
    ensures IsPublicText(s) <==> exists k :: 0 <= k < |DEFAULT_PUBLIC_TOPICS| && Glob(DEFAULT_PUBLIC_TOPICS[k], s)
  {
    forall k | 0 <= k < |PREFIXES|
      ensures Glob(DEFAULT_PUBLIC_TOPICS[k], s) <==> PREFIXES[k] <= s && '\n' !in s
    {
      DefaultIsPrefixes(k);
      PrefixesArePlain(k);
      PrefixPattern(PREFIXES[k], s);
      NewlineBehind(PREFIXES[k], s);
    }
    assert PREFIXES[0] == "commitments/" && PREFIXES[1] == "blocks" && PREFIXES[2] == "transactions/";
    assert PREFIXES[3] == "block-metadata/" && PREFIXES[4] == "transaction-metadata/" && PREFIXES[5] == "outputs/";
  }

  lemma NewlineBehind(pre: string, s: string)
    requires forall c :: c in pre ==> c != '\n'
    ensures pre <= s ==> ('\n' in s <==> '\n' in s[|pre|..])
  {
    if pre <= s {
      assert s == pre + s[|pre|..];
    }
  }

  /** Under the default configuration a topic is public exactly if some end of its lower-case form is such a text. */
  lemma DefaultExact(table: char -> char, topic: string)
    ensures MatchesAny(table, DEFAULT_PUBLIC_TOPICS, topic)
       <==> exists i :: 0 <= i <= |topic| && IsPublicText(ToLower(table, topic)[i..])
  {
    var lowered := ToLower(table, topic);
    forall i | 0 <= i <= |lowered| {
      PublicTextExact(lowered[i..]);
    }
    if MatchesAny(table, DEFAULT_PUBLIC_TOPICS, topic) {
      var k :| 0 <= k < |DEFAULT_PUBLIC_TOPICS| && MatchesSuffix(DEFAULT_PUBLIC_TOPICS[k], lowered);
      var i :| 0 <= i <= |lowered| && Glob(DEFAULT_PUBLIC_TOPICS[k], lowered[i..]);
      assert IsPublicText(lowered[i..]);
    }
    if i :| 0 <= i <= |topic| && IsPublicText(lowered[i..]) {
      var k :| 0 <= k < |DEFAULT_PUBLIC_TOPICS| && Glob(DEFAULT_PUBLIC_TOPICS[k], lowered[i..]);
      assert MatchesSuffix(DEFAULT_PUBLIC_TOPICS[k], lowered);
    }
  }

  // Every published topic is covered.

  lemma CoveredBehind(k: nat, rest: string)
    requires k < |PREFIXES| && '\n' !in rest
    ensures Covered(PREFIXES[k] + rest)
  {}

  lemma RawIsCovered(topic: string)
    requires Covered(topic)
    ensures Covered(topic + RAW)
  {}

  lemma HexHasNoNewline(b: Bytes)
    ensures '\n' !in Encode(b)
  {}

  lemma BlocksNamesCovered(topic: string)
    requires IsBlocksTopic(topic)
    ensures Covered(topic)
  {
    CoveredText(1, topic, "");
    assert topic + "" == topic;
  }

  lemma CoveredText(k: nat, text: string, rest: string)
    requires k < |PREFIXES| && PREFIXES[k] <= text && '\n' !in text && '\n' !in rest
    ensures Covered(text + rest)
  {}

  lemma TaggedDataTagCovered(tag: Bytes)
    ensures Covered(GetTopicBlocksBasicTaggedDataTag(tag))
  {
    HexHasNoNewline(tag);
    CoveredText(1, "blocks/basic/tagged-data/", Encode(tag));
  }

  lemma TransactionTagCovered(tag: Bytes)
    ensures Covered(GetTopicBlocksBasicTransactionTaggedDataTag(tag))
  {
    HexHasNoNewline(tag);
    CoveredText(1, "blocks/basic/transaction/tagged-data/", Encode(tag));
  }

  lemma BlockTopicsCovered(body: BlockBody)
    ensures forall t :: t in BlockTopics(body) ==> Covered(t)
  {
    forall t | t in BlockTopics(body)
      ensures Covered(t)
    {
      if IsBlocksTopic(t) {
        BlocksNamesCovered(t);
      } else {
        var tag := if body.payload.TaggedData? then body.payload.tag else body.payload.taggedData.value;
        TaggedDataTagCovered(tag);
        TransactionTagCovered(tag);
      }
    }
  }

  lemma MetadataTopicsCovered(id: BlockID)
    ensures Covered(METADATA_ACCEPTED) && Covered(METADATA_CONFIRMED) && Covered(GetTopicBlockMetadata(id))
  {
    HexHasNoNewline(id);
    assert METADATA_ACCEPTED == "block-metadata/" + "accepted";
    assert METADATA_CONFIRMED == "block-metadata/" + "confirmed";
    CoveredBehind(3, "accepted");
    CoveredBehind(3, "confirmed");
    CoveredBehind(3, Encode(id));
  }

  lemma TransactionTopicsCovered(id: TransactionID)
    ensures Covered(GetTopicTransactionMetadata(id)) && Covered(GetTopicTransactionsIncludedBlockMetadata(id))
  {
    HexHasNoNewline(id);
    CoveredBehind(4, Encode(id));
    CoveredBehind(2, Encode(id) + "/included-block-metadata");
    assert GetTopicTransactionsIncludedBlockMetadata(id) == "transactions/" + (Encode(id) + "/included-block-metadata");
  }

  /** A nested output topic ends in an address or an identifier. */
  lemma NestedCovered(word: string, rest: string)
    requires '\n' !in word && '\n' !in rest
    ensures Covered("outputs/" + word + rest)
  {
    CoveredBehind(5, word + rest);
    assert "outputs/" + word + rest == "outputs/" + (word + rest);
  }

  /** The assumption about Bech32 texts: no newlines. */
  ghost predicate NewlineFree(codec: Codec) {
    forall id :: '\n' !in codec.accountAddress(id) && '\n' !in codec.anchorAddress(id) && '\n' !in codec.nftAddress(id)
  }

  ghost predicate NewlineFreeOutputs(outputs: seq<Output>) {
    forall o, u :: o in outputs && u in Present(o.conditions) ==> '\n' !in u.1
  }

  ghost predicate NewlineFreeEvent(e: Event) {
    match e
    case AcceptedTransactionEvent(_, consumed, created) => NewlineFreeOutputs(consumed) && NewlineFreeOutputs(created)
    case LedgerUpdateEvent(consumed, created) => NewlineFreeOutputs(consumed) && NewlineFreeOutputs(created)
    case _ => true
  }

  lemma ChainTopicsCovered(codec: Codec, id: OutputID, chain: Chain)
    requires NewlineFree(codec)
    ensures forall t :: t in GetChainTopicsForOutput(codec, id, chain) ==> Covered(t)
  {
    match chain
    case AccountOutput(a) =>
      assert "outputs/account/" == "outputs/" + "account/";
      NestedCovered("account/", codec.accountAddress(OrImplicit(a, codec.accountID, id)));
    case AnchorOutput(a) =>
      assert "outputs/anchor/" == "outputs/" + "anchor/";
      NestedCovered("anchor/", codec.anchorAddress(OrImplicit(a, codec.anchorID, id)));
    case FoundryOutput(a) =>
      if a.Some? {
        assert "outputs/foundry/" == "outputs/" + "foundry/";
        HexHasNoNewline(a.value);
        NestedCovered("foundry/", Encode(a.value));
      }
    case NFTOutput(a) =>
      assert "outputs/nft/" == "outputs/" + "nft/";
      NestedCovered("nft/", codec.nftAddress(OrImplicit(a, codec.nftID, id)));
    case DelegationOutput(a) =>
      assert "outputs/delegation/" == "outputs/" + "delegation/";
      HexHasNoNewline(OrImplicit(a, codec.delegationID, id));
      NestedCovered("delegation/", Encode(OrImplicit(a, codec.delegationID, id)));
    case BasicOutput =>
  }

  lemma UnlockTopicCovered(u: Unlock)
    requires '\n' !in u.1
    ensures Covered(TopicOf(u))
  {
    var name := u.0.Name();
    NameHasNoNewline(u.0);
    assert "outputs/unlock/" == "outputs/" + "unlock/";
    NestedCovered("unlock/", name + "/" + u.1);
    assert "outputs/" + "unlock/" + (name + "/" + u.1) == "outputs/unlock/" + name + "/" + u.1;
  }

  lemma NameHasNoNewline(c: Condition)
    ensures '\n' !in c.Name()
  {}

  lemma OutputTopicsCovered(codec: Codec, o: Output)
    requires ValidOutput(o) && NewlineFree(codec) && forall u :: u in Present(o.conditions) ==> '\n' !in u.1
    ensures forall t :: t in OutputTopics(codec, o, true) ==> Covered(t)
  {
    var unlocks := Present(o.conditions) + AnyOf(o.order);
    HexHasNoNewline(o.id);
    CoveredBehind(5, Encode(o.id));
    ChainTopicsCovered(codec, o.id, o.chain);
    forall i | 0 <= i < |unlocks|
      ensures Covered(TopicsOf(unlocks)[i])
    {
      if i >= |Present(o.conditions)| {
        var a := o.order[i - |Present(o.conditions)|];
        assert a in AddressesOf(Present(o.conditions));
        var u :| u in Present(o.conditions) && u.1 == a;
      }
      UnlockTopicCovered(unlocks[i]);
    }
  }

  ghost predicate AllCovered(calls: seq<seq<string>>) {
    forall i, t :: 0 <= i < |calls| && t in calls[i] ==> Covered(t)
  }

  lemma AllCoveredConcat(a: seq<seq<string>>, b: seq<seq<string>>)
    requires AllCovered(a) && AllCovered(b)
    ensures AllCovered(a + b)
  {}

  lemma OutputCallsCovered(codec: Codec, o: Output)
    requires ValidOutput(o) && NewlineFree(codec) && forall u :: u in Present(o.conditions) ==> '\n' !in u.1
    ensures AllCovered(OutputCalls(codec, o))
  {
    OutputTopicsCovered(codec, o);
    TransactionTopicsCovered(TransactionOf(o.id));
  }

  lemma {:induction false} OutputsCallsCovered(codec: Codec, outputs: seq<Output>)
    requires ValidOutputs(outputs) && NewlineFree(codec) && NewlineFreeOutputs(outputs)
    ensures AllCovered(OutputsCalls(codec, outputs)) && AllCovered(CreatedCalls(codec, outputs))
  {
    if outputs != [] {
      var announcement := GetTopicTransactionMetadata(TransactionOf(outputs[0].id));
      var announced := if IndexOf(outputs[0].id) == 0 then [[announcement]] else [];
      OutputCallsCovered(codec, outputs[0]);
      TransactionTopicsCovered(TransactionOf(outputs[0].id));
      OutputsCallsCovered(codec, outputs[1..]);
      AllCoveredConcat(OutputCalls(codec, outputs[0]), OutputsCalls(codec, outputs[1..]));
      AllCoveredConcat(OutputCalls(codec, outputs[0]), announced);
      AllCoveredConcat(OutputCalls(codec, outputs[0]) + announced, CreatedCalls(codec, outputs[1..]));
    }
  }

  lemma EventCallsCovered(codec: Codec, e: Event)
    requires Valid(e) && NewlineFree(codec) && NewlineFreeEvent(e)
    ensures AllCovered(EventCalls(codec, e))
  {
    match e
    case BlockEvent(body) => BlockTopicsCovered(body);
    case AcceptedBlockEvent(id) => MetadataTopicsCovered(id);
    case ConfirmedBlockEvent(id) => MetadataTopicsCovered(id);
    case AcceptedTransactionEvent(transaction, consumed, created) =>
      OutputsCallsCovered(codec, consumed);
      OutputsCallsCovered(codec, created);
      TransactionTopicsCovered(transaction);
      AllCoveredConcat(OutputsCalls(codec, consumed), OutputsCalls(codec, created));
      AllCoveredConcat(OutputsCalls(codec, consumed) + OutputsCalls(codec, created), [[GetTopicTransactionMetadata(transaction)]]);
    case LedgerUpdateEvent(consumed, created) =>
      OutputsCallsCovered(codec, consumed);
      OutputsCallsCovered(codec, created);
      AllCoveredConcat(OutputsCalls(codec, consumed), CreatedCalls(codec, created));
  }

  /** Every topic that a listener publishes on, plain or raw, may be read by everyone under the default configuration. */
  lemma DefaultCoversEvents(table: char -> char, codec: Codec, e: Event, i: nat, t: string)
    requires IsLowering(table) && NewlineFree(codec) && Valid(e) && NewlineFreeEvent(e)
    requires i < |EventCalls(codec, e)| && t in EventCalls(codec, e)[i]
    ensures MatchesAny(table, DEFAULT_PUBLIC_TOPICS, t) && MatchesAny(table, DEFAULT_PUBLIC_TOPICS, t + RAW)
  {
    EventCallsCovered(codec, e);
    CallIsPublic(table, EventCalls(codec, e), i, t);
  }

  lemma CallIsPublic(table: char -> char, calls: seq<seq<string>>, i: nat, t: string)
    requires IsLowering(table) && AllCovered(calls) && i < |calls| && t in calls[i]
    ensures MatchesAny(table, DEFAULT_PUBLIC_TOPICS, t) && MatchesAny(table, DEFAULT_PUBLIC_TOPICS, t + RAW)
  {
    assert Covered(t);
    RawIsCovered(t);
    CoveredIsPublic(table, t);
    CoveredIsPublic(table, t + RAW);
  }

  /** So may every topic that a fetch for a new subscriber is answered on. */
  lemma DefaultCoversPolls(table: char -> char, p: Poll)
    requires IsLowering(table)
    ensures MatchesAny(table, DEFAULT_PUBLIC_TOPICS, PollTopic(p)) && MatchesAny(table, DEFAULT_PUBLIC_TOPICS, PollTopic(p) + RAW)
  {
    PollTopicCovered(p);
    CallIsPublic(table, [[PollTopic(p)]], 0, PollTopic(p));
  }

  lemma PollTopicCovered(p: Poll)
    ensures Covered(PollTopic(p))
  {
    match p
    case PollLatestCommitment =>
      assert COMMITMENTS_LATEST == "commitments/" + "latest";
      CoveredBehind(0, "latest");
    case PollFinalizedCommitment =>
      assert COMMITMENTS_FINALIZED == "commitments/" + "finalized";
      CoveredBehind(0, "finalized");
    case PollBlockMetadata(id) => MetadataTopicsCovered(id);
    case PollInclusion(id) => TransactionTopicsCovered(id);
    case PollTransactionMetadata(id) => TransactionTopicsCovered(id);
    case PollOutput(id) =>
      HexHasNoNewline(id);
      CoveredBehind(5, Encode(id));
  }
}
