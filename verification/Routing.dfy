/** Which upstream streams a topic starts and stops, and what it fetches at once (pkg/mqtt/server.go). */
module Routing {
  import opened GoStrings
  import opened Hex
  import opened Topics

  datatype Stream = Blocks | AcceptedBlocks | ConfirmedBlocks | AcceptedTransactions | LedgerUpdates

  /** A fetch in the background that answers a new subscriber. */
  datatype Poll =
    | PollLatestCommitment
    | PollFinalizedCommitment
    | PollBlockMetadata(block: BlockID)
    | PollInclusion(transaction: TransactionID)
    | PollTransactionMetadata(transaction: TransactionID)
    | PollOutput(output: OutputID)

  predicate IsBlocksTopic(t: string) {
    || t == BLOCKS || t == BLOCKS_VALIDATION || t == BLOCKS_BASIC || t == BLOCKS_TRANSACTION
    || t == BLOCKS_TRANSACTION_TAGGED || t == BLOCKS_TAGGED
  }

  predicate IsTaggedBlocksTopic(t: string) {
    HasPrefix(t, "blocks/basic/") && Contains(t, "tagged-data/")
  }

  predicate IsLedgerTopic(t: string) {
    HasPrefix(t, "outputs/") || HasPrefix(t, "transactions/") || HasPrefix(t, "transaction-metadata/")
  }

  // Both handlers first compare the topic with the constant names and then, by default, look at its shape.

  function StartByShape(t: string): seq<Stream> {
    if IsTaggedBlocksTopic(t) then [Blocks]
    else if HasPrefix(t, "block-metadata/") then
      if BlockIDFromBlockMetadataTopic(t) != Zero(36) then [AcceptedBlocks, ConfirmedBlocks] else []
    else if IsLedgerTopic(t) then [AcceptedTransactions, LedgerUpdates]
    else []
  }

  function StartTrimmed(t: string): seq<Stream> {
    if t == COMMITMENTS_LATEST then []
    else if t == COMMITMENTS_FINALIZED then []
    else if IsBlocksTopic(t) then [Blocks]
    else if t == METADATA_ACCEPTED then [AcceptedBlocks]
    else if t == METADATA_CONFIRMED then [ConfirmedBlocks]
    else StartByShape(t)
  }

  /** The streams that `onSubscribeTopic` starts, in the order of its calls. */
  function StartRoute(topic: string): seq<Stream> {
    StartTrimmed(TrimSuffix(topic, RAW))
  }

  function StopByShape(t: string): seq<Stream> {
    if IsTaggedBlocksTopic(t) then [Blocks]
    else if HasPrefix(t, "block-metadata/") then [AcceptedBlocks, ConfirmedBlocks]
    else if IsLedgerTopic(t) then [AcceptedTransactions, LedgerUpdates]
    else []
  }

  function StopTrimmed(t: string): seq<Stream> {
    if t == COMMITMENTS_LATEST || t == COMMITMENTS_FINALIZED then []
    else if IsBlocksTopic(t) then [Blocks]
    else if t == METADATA_ACCEPTED then [AcceptedBlocks]
    else if t == METADATA_CONFIRMED then [ConfirmedBlocks]
    else StopByShape(t)
  }

  /** The streams that `onUnsubscribeTopic` stops, in the order of its calls. */
  function StopRoute(topic: string): seq<Stream> {
    StopTrimmed(TrimSuffix(topic, RAW))
  }

  function LedgerPolls(t: string): seq<Poll> {
    var included := TransactionIDFromTransactionsIncludedBlockMetadataTopic(t);
    var transaction := TransactionIDFromTransactionMetadataTopic(t);
    var output := OutputIDFromOutputsTopic(t);
    (if included != Zero(36) then [PollInclusion(included)] else [])
    + (if transaction != Zero(36) then [PollTransactionMetadata(transaction)] else [])
    + (if output != Zero(38) then [PollOutput(output)] else [])
  }

  function PollsByShape(t: string): seq<Poll> {
    if IsTaggedBlocksTopic(t) then []
    else if HasPrefix(t, "block-metadata/") then
      var id := BlockIDFromBlockMetadataTopic(t);
      if id != Zero(36) then [PollBlockMetadata(id)] else []
    else if IsLedgerTopic(t) then LedgerPolls(t)
    else []
  }

  /** The fetches that `onSubscribeTopic` spawns. */
  function Polls(topic: string): seq<Poll> {
    var t := TrimSuffix(topic, RAW);
    if t == COMMITMENTS_LATEST then [PollLatestCommitment]
    else if t == COMMITMENTS_FINALIZED then [PollFinalizedCommitment]
    else if IsBlocksTopic(t) || t == METADATA_ACCEPTED || t == METADATA_CONFIRMED then []
    else PollsByShape(t)
  }

  /** The topic that a fetch publishes its answer on. */
  function PollTopic(p: Poll): string {
    match p
    case PollLatestCommitment => COMMITMENTS_LATEST
    case PollFinalizedCommitment => COMMITMENTS_FINALIZED
    case PollBlockMetadata(id) => GetTopicBlockMetadata(id)
    case PollInclusion(id) => GetTopicTransactionsIncludedBlockMetadata(id)
    case PollTransactionMetadata(id) => GetTopicTransactionMetadata(id)
    case PollOutput(id) => GetTopicOutput(id)
  }

  /** A topic of the shape `block-metadata/...` whose rest is neither a state nor a block. */
  predicate Unparsable(topic: string) {
    var t := TrimSuffix(topic, RAW);
    HasPrefix(t, "block-metadata/") && t != METADATA_ACCEPTED && t != METADATA_CONFIRMED
    && BlockIDFromBlockMetadataTopic(t) == Zero(36)
  }

  lemma BlockMetadataIsNoBlocksTopic(t: string)
    requires HasPrefix(t, "block-metadata/")
    ensures t != COMMITMENTS_LATEST && t != COMMITMENTS_FINALIZED && !IsBlocksTopic(t) && !HasPrefix(t, "blocks/basic/")
  {
    assert t[0] == 'b' && t[5] == '-';
  }

  /** Unparsable are exactly the topics behind the prefix that are neither a state nor spell a block. */
  lemma UnparsableExact(topic: string)
    ensures var t := TrimSuffix(topic, RAW);
            Unparsable(topic) <==>
              HasPrefix(t, "block-metadata/") && t != METADATA_ACCEPTED && t != METADATA_CONFIRMED
              && forall id: BlockID :: id != Zero(36) ==> !Spells(t, "block-metadata/", id, "")
  {
    var t := TrimSuffix(topic, RAW);
    forall id: BlockID | id != Zero(36)
      ensures BlockIDFromBlockMetadataTopic(t) == id <==> Spells(t, "block-metadata/", id, "")
    {
      BlockMetadataSpelling(t, id);
    }
    var parsed := BlockIDFromBlockMetadataTopic(t);
    assert parsed != Zero(36) ==> Spells(t, "block-metadata/", parsed, "");
  }

  /** Unsubscribing stops exactly what subscribing started, unless the topic is an unparsable block topic. */
  lemma RoutesAgree(topic: string)
    ensures StartRoute(topic) == StopRoute(topic) <==> !Unparsable(topic)
    ensures Unparsable(topic) ==> StartRoute(topic) == [] && StopRoute(topic) == [AcceptedBlocks, ConfirmedBlocks]
  {
    var t := TrimSuffix(topic, RAW);
    if HasPrefix(t, "block-metadata/") {
      BlockMetadataIsNoBlocksTopic(t);
    }
  }

  /** No call is repeated, and every started stream is stopped again. */
  lemma RoutesShape(topic: string)
    ensures forall i, j :: 0 <= i < j < |StartRoute(topic)| ==> StartRoute(topic)[i] != StartRoute(topic)[j]
    ensures forall i, j :: 0 <= i < j < |StopRoute(topic)| ==> StopRoute(topic)[i] != StopRoute(topic)[j]
    ensures forall s :: s in StartRoute(topic) ==> s in StopRoute(topic)
  {
    RoutesAgree(topic);
  }

  /** The raw form of a topic is treated like the topic itself. */
  lemma RawRoutes(t: string)
    requires forall v :: t != v + "/raw"
    ensures StartRoute(t + "/raw") == StartRoute(t) && StopRoute(t + "/raw") == StopRoute(t) && Polls(t + "/raw") == Polls(t)
  {
    WithoutRawIsTrimmed(t, t);
    TrimRaw(t);
  }

  lemma TrimRaw(t: string)
    ensures TrimSuffix(t + RAW, RAW) == t
  {}

  lemma NotRaw(topic: string)
    requires topic != [] && topic[|topic| - 1] != 'w'
    ensures TrimSuffix(topic, RAW) == topic
  {}

  lemma LowerConcat(a: string, b: string)
    ensures Lower(a + b) == Lower(a) + Lower(b)
  {}

  /** Where digits are spelled between lower-case texts, the printed form is the lower-case form. */
  lemma SpelledInLowerCase(t: string, prefix: string, id: Bytes, suffix: string)
    requires Spells(t, prefix, id, suffix) && forall c :: c in prefix || c in suffix ==> !('A' <= c <= 'Z')
    ensures Lower(t) == prefix + Encode(id) + suffix
  {
    var hex :| t == prefix + hex + suffix && Lower(hex) == Encode(id);
    LowerUnchanged(prefix);
    LowerUnchanged(suffix);
    LowerConcat(prefix + hex, suffix);
    LowerConcat(prefix, hex);
  }

  lemma BlockPollTopic(t: string)
    requires BlockIDFromBlockMetadataTopic(t) != Zero(36)
    ensures PollTopic(PollBlockMetadata(BlockIDFromBlockMetadataTopic(t))) == Lower(t)
  {
    var id := BlockIDFromBlockMetadataTopic(t);
    BlockMetadataSpelling(t, id);
    SpelledInLowerCase(t, "block-metadata/", id, "");
  }

  lemma InclusionPollTopic(t: string)
    requires TransactionIDFromTransactionsIncludedBlockMetadataTopic(t) != Zero(36)
    ensures PollTopic(PollInclusion(TransactionIDFromTransactionsIncludedBlockMetadataTopic(t))) == Lower(t)
  {
    var id := TransactionIDFromTransactionsIncludedBlockMetadataTopic(t);
    IncludedSpelling(t, id);
    IncludedIsLower();
    SpelledInLowerCase(t, "transactions/", id, "/included-block-metadata");
  }

  lemma IncludedIsLower()
    ensures forall c :: c in "transactions/" || c in "/included-block-metadata" ==> !('A' <= c <= 'Z')
  {}

  lemma TransactionMetadataPollTopic(t: string)
    requires TransactionIDFromTransactionMetadataTopic(t) != Zero(36)
    ensures PollTopic(PollTransactionMetadata(TransactionIDFromTransactionMetadataTopic(t))) == Lower(t)
  {
    var id := TransactionIDFromTransactionMetadataTopic(t);
    TransactionMetadataSpelling(t, id);
    SpelledInLowerCase(t, "transaction-metadata/", id, "");
  }

  lemma OutputPollTopic(t: string)
    requires OutputIDFromOutputsTopic(t) != Zero(38)
    ensures PollTopic(PollOutput(OutputIDFromOutputsTopic(t))) == Lower(t)
  {
    var id := OutputIDFromOutputsTopic(t);
    OutputSpelling(t, id);
    SpelledInLowerCase(t, "outputs/", id, "");
  }

  /** What a fetch was spawned for. */
  ghost predicate SpawnedFor(p: Poll, t: string) {
    match p
    case PollLatestCommitment => t == COMMITMENTS_LATEST
    case PollFinalizedCommitment => t == COMMITMENTS_FINALIZED
    case PollBlockMetadata(id) => id != Zero(36) && BlockIDFromBlockMetadataTopic(t) == id
    case PollInclusion(id) => id != Zero(36) && TransactionIDFromTransactionsIncludedBlockMetadataTopic(t) == id
    case PollTransactionMetadata(id) => id != Zero(36) && TransactionIDFromTransactionMetadataTopic(t) == id
    case PollOutput(id) => id != Zero(38) && OutputIDFromOutputsTopic(t) == id
  }

  lemma PollsAreSpawnedFor(topic: string, p: Poll)
    requires p in Polls(topic)
    ensures SpawnedFor(p, TrimSuffix(topic, RAW))
  {
    var t := TrimSuffix(topic, RAW);
    if p in LedgerPolls(t) {
      LedgerPollsAreSpawnedFor(t, p);
    }
  }

  lemma LedgerPollsAreSpawnedFor(t: string, p: Poll)
    requires p in LedgerPolls(t)
    ensures SpawnedFor(p, t)
  {
    var included := TransactionIDFromTransactionsIncludedBlockMetadataTopic(t);
    var transaction := TransactionIDFromTransactionMetadataTopic(t);
    var output := OutputIDFromOutputsTopic(t);
    assert p == PollInclusion(included) || p == PollTransactionMetadata(transaction) || p == PollOutput(output);
  }

  lemma SpawnedPollTopic(p: Poll, t: string)
    requires SpawnedFor(p, t)
    ensures PollTopic(p) == Lower(t)
  {
    match p
    case PollLatestCommitment => LowerUnchanged(COMMITMENTS_LATEST);
    case PollFinalizedCommitment => LowerUnchanged(COMMITMENTS_FINALIZED);
    case PollBlockMetadata(id) => BlockPollTopic(t);
    case PollInclusion(id) => InclusionPollTopic(t);
    case PollTransactionMetadata(id) => TransactionMetadataPollTopic(t);
    case PollOutput(id) => OutputPollTopic(t);
  }

  lemma AtMostOnePoll(topic: string)
    ensures |Polls(topic)| <= 1
  {
    AtMostOneIdentifier(TrimSuffix(topic, RAW));
  }

  /** A subscription spawns at most one fetch. Its answer is published on the lower-case form of the topic, so that it reaches the
      subscriber exactly if the topic has no upper-case digits. */
  lemma PollAnswersSubscriber(topic: string)
    ensures |Polls(topic)| <= 1
    ensures forall p :: p in Polls(topic) ==> PollTopic(p) == Lower(TrimSuffix(topic, RAW))
    ensures forall p :: p in Polls(topic) ==> (PollTopic(p) == TrimSuffix(topic, RAW) <==> NoUpperCase(TrimSuffix(topic, RAW)))
  {
    AtMostOnePoll(topic);
    LowerUnchanged(TrimSuffix(topic, RAW));
    forall p | p in Polls(topic)
      ensures PollTopic(p) == Lower(TrimSuffix(topic, RAW))
    {
      PollsAreSpawnedFor(topic, p);
      SpawnedPollTopic(p, TrimSuffix(topic, RAW));
    }
  }

  lemma SpelledHasPrefix(t: string, prefix: string, id: Bytes, suffix: string)
    requires Spells(t, prefix, id, suffix)
    ensures HasPrefix(t, prefix)
  {}

  /** What ends in the name of a state is no block. */
  lemma StatesAreNoBlocks()
    ensures BlockIDFromBlockMetadataTopic(METADATA_ACCEPTED) == Zero(36) && BlockIDFromBlockMetadataTopic(METADATA_CONFIRMED) == Zero(36)
  {}

  lemma BlockIsPolled(topic: string, id: BlockID)
    requires id != Zero(36) && Spells(TrimSuffix(topic, RAW), "block-metadata/", id, "")
    ensures Polls(topic) == [PollBlockMetadata(id)]
  {
    var t := TrimSuffix(topic, RAW);
    BlockMetadataSpelling(t, id);
    SpelledHasPrefix(t, "block-metadata/", id, "");
    BlockMetadataIsNoBlocksTopic(t);
    StatesAreNoBlocks();
  }

  lemma LedgerTopicIsNothingElse(t: string)
    requires IsLedgerTopic(t)
    ensures t != COMMITMENTS_LATEST && t != COMMITMENTS_FINALIZED && !IsBlocksTopic(t) && !IsTaggedBlocksTopic(t)
    ensures t != METADATA_ACCEPTED && t != METADATA_CONFIRMED && !HasPrefix(t, "block-metadata/")
  {
    assert t[0] == 'o' || t[0] == 't';
    assert COMMITMENTS_LATEST[0] == 'c' && COMMITMENTS_FINALIZED[0] == 'c';
  }

  lemma LedgerTopicIsPolled(topic: string)
    requires IsLedgerTopic(TrimSuffix(topic, RAW))
    ensures Polls(topic) == LedgerPolls(TrimSuffix(topic, RAW))
  {
    LedgerTopicIsNothingElse(TrimSuffix(topic, RAW));
  }

  lemma InclusionIsPolled(topic: string, id: TransactionID)
    requires id != Zero(36) && Spells(TrimSuffix(topic, RAW), "transactions/", id, "/included-block-metadata")
    ensures PollInclusion(id) in Polls(topic)
  {
    var t := TrimSuffix(topic, RAW);
    IncludedSpelling(t, id);
    SpelledHasPrefix(t, "transactions/", id, "/included-block-metadata");
    LedgerTopicIsPolled(topic);
    assert LedgerPolls(t)[0] == PollInclusion(id);
  }

  lemma TransactionMetadataIsPolled(topic: string, id: TransactionID)
    requires id != Zero(36) && Spells(TrimSuffix(topic, RAW), "transaction-metadata/", id, "")
    ensures PollTransactionMetadata(id) in Polls(topic)
  {
    var t := TrimSuffix(topic, RAW);
    TransactionMetadataSpelling(t, id);
    SpelledHasPrefix(t, "transaction-metadata/", id, "");
    LedgerTopicIsPolled(topic);
    AtMostOneIdentifier(t);
    assert LedgerPolls(t)[0] == PollTransactionMetadata(id);
  }

  lemma OutputIsPolled(topic: string, id: OutputID)
    requires id != Zero(38) && Spells(TrimSuffix(topic, RAW), "outputs/", id, "")
    ensures PollOutput(id) in Polls(topic)
  {
    var t := TrimSuffix(topic, RAW);
    OutputSpelling(t, id);
    SpelledHasPrefix(t, "outputs/", id, "");
    LedgerTopicIsPolled(topic);
    AtMostOneIdentifier(t);
    assert LedgerPolls(t)[0] == PollOutput(id);
  }

  /** Whether the topic, without its raw suffix, is what the fetch is about, in any letter case of the digits. */
  ghost predicate Asks(topic: string, p: Poll) {
    var t := TrimSuffix(topic, RAW);
    match p
    case PollLatestCommitment => t == COMMITMENTS_LATEST
    case PollFinalizedCommitment => t == COMMITMENTS_FINALIZED
    case PollBlockMetadata(id) => id != Zero(36) && Spells(t, "block-metadata/", id, "")
    case PollInclusion(id) => id != Zero(36) && Spells(t, "transactions/", id, "/included-block-metadata")
    case PollTransactionMetadata(id) => id != Zero(36) && Spells(t, "transaction-metadata/", id, "")
    case PollOutput(id) => id != Zero(38) && Spells(t, "outputs/", id, "")
  }

  /** A fetch is spawned exactly when the topic asks for it. */
  lemma PollsExact(topic: string, p: Poll)
    ensures p in Polls(topic) <==> Asks(topic, p)
  {
    var t := TrimSuffix(topic, RAW);
    if p in Polls(topic) {
      PollsAreSpawnedFor(topic, p);
      SpawnedAsks(topic, p);
    } else if Asks(topic, p) {
      match p
      case PollLatestCommitment =>
      case PollFinalizedCommitment =>
      case PollBlockMetadata(id) => BlockIsPolled(topic, id);
      case PollInclusion(id) => InclusionIsPolled(topic, id);
      case PollTransactionMetadata(id) => TransactionMetadataIsPolled(topic, id);
      case PollOutput(id) => OutputIsPolled(topic, id);
    }
  }

  lemma SpawnedAsks(topic: string, p: Poll)
    requires SpawnedFor(p, TrimSuffix(topic, RAW))
    ensures Asks(topic, p)
  {
    var t := TrimSuffix(topic, RAW);
    match p
    case PollLatestCommitment =>
    case PollFinalizedCommitment =>
    case PollBlockMetadata(id) => BlockMetadataSpelling(t, id);
    case PollInclusion(id) => IncludedSpelling(t, id);
    case PollTransactionMetadata(id) => TransactionMetadataSpelling(t, id);
    case PollOutput(id) => OutputSpelling(t, id);
  }

  // Exactly which topics start and stop which stream.

  /** `t` is the topic without one raw suffix. */
  ghost predicate WithoutRaw(topic: string, t: string) {
    topic == t + "/raw" || (topic == t && forall v :: topic != v + "/raw")
  }

  lemma WithoutRawIsTrimmed(topic: string, t: string)
    requires WithoutRaw(topic, t)
    ensures TrimSuffix(topic, RAW) == t
  {
    if topic == t + "/raw" {
      TrimRaw(t);
    } else if HasSuffix(topic, RAW) {
      assert topic == topic[..|topic| - 4] + "/raw";
    }
  }

  /** One of the six names, or a text behind `blocks/basic/` with `tagged-data/` in it. */
  ghost predicate NeedsBlocks(t: string) {
    || t == "blocks" || t == "blocks/validation" || t == "blocks/basic" || t == "blocks/basic/transaction"
    || t == "blocks/basic/transaction/tagged-data" || t == "blocks/basic/tagged-data"
    || ("blocks/basic/" <= t && exists k :: 0 <= k <= |t| && "tagged-data/" <= t[k..])
  }

  ghost predicate SpellsBlock(t: string) {
    exists id: BlockID :: id != Zero(36) && Spells(t, "block-metadata/", id, "")
  }

  predicate NeedsLedger(t: string) {
    "outputs/" <= t || "transactions/" <= t || "transaction-metadata/" <= t
  }

  lemma ContainsExact(s: string, sub: string)
    ensures Contains(s, sub) <==> exists k :: 0 <= k <= |s| && sub <= s[k..]
  {
    forall k | 0 <= k <= |s| && sub <= s[k..]
      ensures Contains(s, sub)
    {
      IndexIsFirst(s, sub, k);
    }
  }

  lemma SpellsBlockExact(t: string)
    ensures SpellsBlock(t) <==> BlockIDFromBlockMetadataTopic(t) != Zero(36)
    ensures SpellsBlock(t) ==> "block-metadata/" <= t
  {
    forall id: BlockID | id != Zero(36)
      ensures BlockIDFromBlockMetadataTopic(t) == id <==> Spells(t, "block-metadata/", id, "")
    {
      BlockMetadataSpelling(t, id);
    }
    var parsed := BlockIDFromBlockMetadataTopic(t);
    assert parsed != Zero(36) ==> Spells(t, "block-metadata/", parsed, "");
  }

  lemma NeedsBlocksExact(t: string)
    ensures NeedsBlocks(t) <==> IsBlocksTopic(t) || IsTaggedBlocksTopic(t)
  {
    ContainsExact(t, "tagged-data/");
  }

  /** The kinds of topics exclude each other. */
  lemma BlocksAreNothingElse(t: string)
    requires IsBlocksTopic(t) || IsTaggedBlocksTopic(t)
    ensures t != COMMITMENTS_LATEST && t != COMMITMENTS_FINALIZED && t != METADATA_ACCEPTED && t != METADATA_CONFIRMED
    ensures !HasPrefix(t, "block-metadata/") && !IsLedgerTopic(t)
  {
    assert |t| >= 6 && t[0] == 'b' && t[5] == 's';
    assert COMMITMENTS_LATEST[0] == 'c' && COMMITMENTS_FINALIZED[0] == 'c' && METADATA_ACCEPTED[5] == '-' && METADATA_CONFIRMED[5] == '-';
  }

  lemma MetadataIsNothingElse(t: string)
    requires HasPrefix(t, "block-metadata/")
    ensures t != COMMITMENTS_LATEST && t != COMMITMENTS_FINALIZED && !IsBlocksTopic(t) && !IsTaggedBlocksTopic(t) && !IsLedgerTopic(t)
  {
    BlockMetadataIsNoBlocksTopic(t);
    assert t[0] == 'b';
  }

  lemma StateTexts()
    ensures METADATA_ACCEPTED == "block-metadata/accepted" && METADATA_CONFIRMED == "block-metadata/confirmed"
    ensures "block-metadata/" <= METADATA_ACCEPTED && "block-metadata/" <= METADATA_CONFIRMED && METADATA_ACCEPTED != METADATA_CONFIRMED
  {}

  /** Both routes of a trimmed topic, by kind. */
  lemma RoutesByKind(t: string)
    ensures NeedsBlocks(t) ==> StartTrimmed(t) == StopTrimmed(t) == [Blocks]
    ensures NeedsLedger(t) ==> StartTrimmed(t) == StopTrimmed(t) == [AcceptedTransactions, LedgerUpdates]
    ensures t == METADATA_ACCEPTED ==> StartTrimmed(t) == StopTrimmed(t) == [AcceptedBlocks]
    ensures t == METADATA_CONFIRMED ==> StartTrimmed(t) == StopTrimmed(t) == [ConfirmedBlocks]
    ensures "block-metadata/" <= t && t != METADATA_ACCEPTED && t != METADATA_CONFIRMED ==>
      StartTrimmed(t) == (if SpellsBlock(t) then [AcceptedBlocks, ConfirmedBlocks] else []) && StopTrimmed(t) == [AcceptedBlocks, ConfirmedBlocks]
    ensures !NeedsBlocks(t) && !NeedsLedger(t) && !("block-metadata/" <= t) ==> StartTrimmed(t) == StopTrimmed(t) == []
  {
    NeedsBlocksExact(t);
    SpellsBlockExact(t);
    StateTexts();
    if IsBlocksTopic(t) || IsTaggedBlocksTopic(t) {
      BlocksAreNothingElse(t);
    } else if HasPrefix(t, "block-metadata/") {
      MetadataIsNothingElse(t);
    } else if IsLedgerTopic(t) {
      LedgerTopicIsNothingElse(t);
    }
  }

  lemma KindsApart(t: string)
    ensures !(NeedsBlocks(t) && NeedsLedger(t)) && !("block-metadata/" <= t && (NeedsBlocks(t) || NeedsLedger(t)))
    ensures SpellsBlock(t) ==> "block-metadata/" <= t && t != METADATA_ACCEPTED && t != METADATA_CONFIRMED
  {
    NeedsBlocksExact(t);
    SpellsBlockExact(t);
    StatesAreNoBlocks();
    if IsBlocksTopic(t) || IsTaggedBlocksTopic(t) {
      BlocksAreNothingElse(t);
    } else if HasPrefix(t, "block-metadata/") {
      MetadataIsNothingElse(t);
    }
  }

  /** For every topic, which streams a subscription starts. */
  lemma StartRouteExact(topic: string, t: string)
    requires WithoutRaw(topic, t)
    ensures Blocks in StartRoute(topic) <==> NeedsBlocks(t)
    ensures AcceptedBlocks in StartRoute(topic) <==> t == "block-metadata/accepted" || SpellsBlock(t)
    ensures ConfirmedBlocks in StartRoute(topic) <==> t == "block-metadata/confirmed" || SpellsBlock(t)
    ensures AcceptedTransactions in StartRoute(topic) <==> NeedsLedger(t)
    ensures LedgerUpdates in StartRoute(topic) <==> NeedsLedger(t)
  {
    WithoutRawIsTrimmed(topic, t);
    RoutesByKind(t);
    KindsApart(t);
    StateTexts();
  }

  /** And which streams an unsubscription stops. */
  lemma StopRouteExact(topic: string, t: string)
    requires WithoutRaw(topic, t)
    ensures Blocks in StopRoute(topic) <==> NeedsBlocks(t)
    ensures AcceptedBlocks in StopRoute(topic) <==> "block-metadata/" <= t && t != "block-metadata/confirmed"
    ensures ConfirmedBlocks in StopRoute(topic) <==> "block-metadata/" <= t && t != "block-metadata/accepted"
    ensures AcceptedTransactions in StopRoute(topic) <==> NeedsLedger(t)
    ensures LedgerUpdates in StopRoute(topic) <==> NeedsLedger(t)
  {
    WithoutRawIsTrimmed(topic, t);
    RoutesByKind(t);
    KindsApart(t);
    StateTexts();
  }

  /** Commitment topics, and every text of none of the shapes, start and stop nothing. */
  lemma NothingNeeded(topic: string, t: string)
    requires WithoutRaw(topic, t)
    requires t == "commitments/latest" || t == "commitments/finalized" || (!NeedsBlocks(t) && !NeedsLedger(t) && !("block-metadata/" <= t))
    ensures StartRoute(topic) == [] && StopRoute(topic) == []
  {
    WithoutRawIsTrimmed(topic, t);
    RoutesByKind(t);
    CommitmentTexts();
  }

  lemma CommitmentTexts()
    ensures COMMITMENTS_LATEST == "commitments/latest" && COMMITMENTS_FINALIZED == "commitments/finalized"
  {}

  predicate NoUpperCase(s: string) {
    forall c :: c in s ==> !('A' <= c <= 'Z')
  }

  lemma LowerUnchanged(s: string)
    ensures Lower(s) == s <==> NoUpperCase(s)
  {
    assert forall i :: 0 <= i < |s| ==> s[i] in s;
    if Lower(s) == s {
      assert forall i :: 0 <= i < |s| ==> LowerChar(s[i]) == s[i];
    }
  }
}
