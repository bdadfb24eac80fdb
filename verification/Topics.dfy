/** Topic names of the event API: the printers, and the parsers that read identifiers back (pkg/mqtt/topics.go). */
module Topics {
  import opened GoStrings
  import opened Hex

  // Identifiers. A parser reports the all-zero identifier when the topic holds none.

  function Zero(n: nat): (b: Bytes)
    ensures |b| == n
  {
    seq(n, _ => 0)
  }

  type BlockID = b: Bytes | |b| == 36 witness Zero(36)
  type TransactionID = b: Bytes | |b| == 36 witness Zero(36)
  type OutputID = b: Bytes | |b| == 38 witness Zero(38)

  function TransactionOf(id: OutputID): TransactionID {
    id[..36]
  }

  /** The output index is stored little-endian behind the transaction. */
  function IndexOf(id: OutputID): nat {
    id[36] as int + 256 * id[37] as int
  }

  /** The output with index `low + 256 * high` of a transaction. */
  lemma OutputParts(transaction: TransactionID, low: Byte, high: Byte)
    ensures |transaction + [low, high]| == 38
    ensures TransactionOf(transaction + [low, high]) == transaction && IndexOf(transaction + [low, high]) == low + 256 * high
  {}

  /** The first output of a transaction, as the server builds its identifier: zeros with the transaction copied over them. */
  function FirstOutputOf(transaction: TransactionID): OutputID {
    transaction + Zero(38)[36..]
  }

  lemma FirstOutputExact(transaction: TransactionID, output: OutputID)
    ensures FirstOutputOf(transaction) == transaction + [0, 0]
    ensures output == FirstOutputOf(transaction) <==> TransactionOf(output) == transaction && IndexOf(output) == 0
  {
    assert output == output[..36] + [output[36], output[37]];
    assert FirstOutputOf(transaction) == transaction + [0, 0];
  }

  // Names and templates of package `api` of iota.go.

  /** How a template marks the place of a parameter. */
  function Parameter(name: string): string {
    "{" + name + "}"
  }

  const RAW := "/raw"
  const COMMITMENTS_LATEST := "commitments/latest"
  const COMMITMENTS_FINALIZED := "commitments/finalized"
  const BLOCKS := "blocks"
  const BLOCKS_VALIDATION := "blocks/validation"
  const BLOCKS_BASIC := "blocks/basic"
  const BLOCKS_TAGGED := "blocks/basic/tagged-data"
  const BLOCKS_TAGGED_TAG := "blocks/basic/tagged-data/" + Parameter("tag")
  const BLOCKS_TRANSACTION := "blocks/basic/transaction"
  const BLOCKS_TRANSACTION_TAGGED := "blocks/basic/transaction/tagged-data"
  const BLOCKS_TRANSACTION_TAGGED_TAG := "blocks/basic/transaction/tagged-data/" + Parameter("tag")
  const SUFFIX_ACCEPTED := "accepted"
  const SUFFIX_CONFIRMED := "confirmed"
  const METADATA_ACCEPTED := "block-metadata/accepted"
  const METADATA_CONFIRMED := "block-metadata/confirmed"
  const METADATA := "block-metadata/" + Parameter("blockId")
  const INCLUDED := "transactions/" + Parameter("transactionId") + "/included-block-metadata"
  const TRANSACTION_METADATA := "transaction-metadata/" + Parameter("transactionId")
  const OUTPUTS := "outputs/" + Parameter("outputId")
  const ACCOUNT_OUTPUTS := "outputs/account/" + Parameter("accountAddress")
  const ANCHOR_OUTPUTS := "outputs/anchor/" + Parameter("anchorAddress")
  const FOUNDRY_OUTPUTS := "outputs/foundry/" + Parameter("foundryId")
  const NFT_OUTPUTS := "outputs/nft/" + Parameter("nftAddress")
  const DELEGATION_OUTPUTS := "outputs/delegation/" + Parameter("delegationId")
  const UNLOCK_OUTPUTS := "outputs/unlock/" + Parameter("condition") + "/" + Parameter("address")

  /** `api.EndpointWithNamedParameterValue`. */
  function Fill(endpoint: string, parameter: string, value: string): string {
    ReplaceFirst(endpoint, Parameter(parameter), value)
  }

  lemma FillAt(pre: string, parameter: string, post: string, value: string)
    requires '{' !in pre
    ensures Fill(pre + Parameter(parameter) + post, parameter, value) == pre + value + post
  {
    ReplaceFirstAfter(pre, Parameter(parameter), post, value);
  }

  lemma FillAtEnd(pre: string, parameter: string, value: string)
    requires '{' !in pre
    ensures Fill(pre + Parameter(parameter), parameter, value) == pre + value
  {
    FillAt(pre, parameter, "", value);
    assert pre + Parameter(parameter) + "" == pre + Parameter(parameter);
    assert pre + value + "" == pre + value;
  }

  // Printers.

  function GetTopicBlocksBasicTaggedDataTag(tag: Bytes): (t: string)
    ensures t == "blocks/basic/tagged-data/" + Encode(tag)
  {
    FillAtEnd("blocks/basic/tagged-data/", "tag", Encode(tag));
    Fill(BLOCKS_TAGGED_TAG, "tag", Encode(tag))
  }

  function GetTopicBlocksBasicTransactionTaggedDataTag(tag: Bytes): (t: string)
    ensures t == "blocks/basic/transaction/tagged-data/" + Encode(tag)
  {
    FillAtEnd("blocks/basic/transaction/tagged-data/", "tag", Encode(tag));
    Fill(BLOCKS_TRANSACTION_TAGGED_TAG, "tag", Encode(tag))
  }

  function GetTopicBlockMetadata(id: BlockID): (t: string)
    ensures t == "block-metadata/" + Encode(id)
  {
    FillAtEnd("block-metadata/", "blockId", Encode(id));
    Fill(METADATA, "blockId", Encode(id))
  }

  function GetTopicOutput(id: OutputID): (t: string)
    ensures t == "outputs/" + Encode(id)
  {
    FillAtEnd("outputs/", "outputId", Encode(id));
    Fill(OUTPUTS, "outputId", Encode(id))
  }

  function GetTopicTransactionsIncludedBlockMetadata(id: TransactionID): (t: string)
    ensures t == "transactions/" + Encode(id) + "/included-block-metadata"
  {
    FillAt("transactions/", "transactionId", "/included-block-metadata", Encode(id));
    Fill(INCLUDED, "transactionId", Encode(id))
  }

  function GetTopicTransactionMetadata(id: TransactionID): (t: string)
    ensures t == "transaction-metadata/" + Encode(id)
  {
    FillAtEnd("transaction-metadata/", "transactionId", Encode(id));
    Fill(TRANSACTION_METADATA, "transactionId", Encode(id))
  }

  function GetTopicAccountOutputs(address: string): (t: string)
    ensures t == "outputs/account/" + address
  {
    FillAtEnd("outputs/account/", "accountAddress", address);
    Fill(ACCOUNT_OUTPUTS, "accountAddress", address)
  }

  function GetTopicAnchorOutputs(address: string): (t: string)
    ensures t == "outputs/anchor/" + address
  {
    FillAtEnd("outputs/anchor/", "anchorAddress", address);
    Fill(ANCHOR_OUTPUTS, "anchorAddress", address)
  }

  function GetTopicFoundryOutputs(id: Bytes): (t: string)
    ensures t == "outputs/foundry/" + Encode(id)
  {
    FillAtEnd("outputs/foundry/", "foundryId", Encode(id));
    Fill(FOUNDRY_OUTPUTS, "foundryId", Encode(id))
  }

  function GetTopicNFTOutputs(address: string): (t: string)
    ensures t == "outputs/nft/" + address
  {
    FillAtEnd("outputs/nft/", "nftAddress", address);
    Fill(NFT_OUTPUTS, "nftAddress", address)
  }

  function GetTopicDelegationOutputs(id: Bytes): (t: string)
    ensures t == "outputs/delegation/" + Encode(id)
  {
    FillAtEnd("outputs/delegation/", "delegationId", Encode(id));
    Fill(DELEGATION_OUTPUTS, "delegationId", Encode(id))
  }

  // Parsers.

  function IDFromHex(hex: string, length: nat): (id: Bytes)
    ensures |id| == length
  {
    var b := Decode(hex);
    if b.Some? && |b.value| == length then b.value else Zero(length)
  }

  function BlockIDFromBlockMetadataTopic(topic: string): BlockID {
    if HasPrefix(topic, "block-metadata/") && !(HasSuffix(topic, SUFFIX_ACCEPTED) || HasSuffix(topic, SUFFIX_CONFIRMED))
    then IDFromHex(ReplaceFirst(topic, "block-metadata/", ""), 36)
    else Zero(36)
  }

  function TransactionIDFromTransactionsIncludedBlockMetadataTopic(topic: string): TransactionID {
    if HasPrefix(topic, "transactions/") && HasSuffix(topic, "/included-block-metadata") then
      var hex := ReplaceFirst(topic, "transactions/", "");
      IDFromHex(ReplaceFirst(hex, "/included-block-metadata", ""), 36)
    else Zero(36)
  }

  function TransactionIDFromTransactionMetadataTopic(topic: string): TransactionID {
    if HasPrefix(topic, "transaction-metadata/") && Count(topic, '/') == 1
    then IDFromHex(ReplaceFirst(topic, "transaction-metadata/", ""), 36)
    else Zero(36)
  }

  function OutputIDFromOutputsTopic(topic: string): OutputID {
    if HasPrefix(topic, "outputs/") && Count(topic, '/') == 1
    then IDFromHex(ReplaceFirst(topic, "outputs/", ""), 38)
    else Zero(38)
  }

  // Facts about single pieces of the parsers.

  /** Removing a prefix of the topic removes its first occurrence. */
  lemma RemovePrefix(prefix: string, rest: string)
    ensures ReplaceFirst(prefix + rest, prefix, "") == rest
  {}

  lemma IDFromEncoded(id: Bytes)
    ensures IDFromHex(Encode(id), |id|) == id
  {
    DecodeEncode(id);
  }

  /** Only hexadecimal text of the right length yields an identifier, and it is that identifier's text up to letter case. */
  lemma IDFromHexInverse(hex: string, length: nat)
    requires IDFromHex(hex, length) != Zero(length)
    ensures IsHexText(hex) && Lower(hex) == Encode(IDFromHex(hex, length))
  {
    EncodeDecode(hex);
    DecodableIsHexText(hex);
  }

  lemma HexTextHasNo(s: string, c: char)
    requires IsHexText(s) && !IsDigit(c) && c != 'x' && c != 'X'
    ensures c !in s
  {}

  /** A suffix that holds a character of neither part is not a suffix of their concatenation. */
  lemma NoSuffixWithout(prefix: string, hex: string, suffix: string, k: nat)
    requires k < |suffix| && suffix[k] !in prefix && suffix[k] !in hex
    ensures !HasSuffix(prefix + hex, suffix)
  {}

  lemma OneSlash(prefix: string, rest: string)
    requires '/' !in prefix
    ensures Count(prefix + "/" + rest, '/') == 1 <==> '/' !in rest
  {
    CountConcat(prefix + "/", rest, '/');
    CountConcat(prefix, "/", '/');
    CountZero(prefix, '/');
    CountZero(rest, '/');
  }

  // Which topics hold which identifier.

  /** The topic is `prefix`, then the digits of `id` in any letter case, then `suffix`. */
  ghost predicate Spells(topic: string, prefix: string, id: Bytes, suffix: string) {
    exists hex :: topic == prefix + hex + suffix && Lower(hex) == Encode(id)
  }

  /** A parser that hands everything behind `prefix` to the hexadecimal decoder. */
  lemma PrefixParse(topic: string, prefix: string, id: Bytes)
    requires id != Zero(|id|)
    ensures HasPrefix(topic, prefix) && IDFromHex(ReplaceFirst(topic, prefix, ""), |id|) == id <==> Spells(topic, prefix, id, "")
  {
    if HasPrefix(topic, prefix) {
      var rest := topic[|prefix|..];
      assert topic == prefix + rest && topic == prefix + rest + "";
      RemovePrefix(prefix, rest);
      if IDFromHex(rest, |id|) == id {
        IDFromHexInverse(rest, |id|);
      }
    }
    if Spells(topic, prefix, id, "") {
      var hex :| topic == prefix + hex + "" && Lower(hex) == Encode(id);
      DecodeAnyCase(hex, id);
      RemovePrefix(prefix, hex);
      assert topic == prefix + hex;
    }
  }

  /** Behind a prefix, the digits of an identifier. */
  lemma SpelledDigits(topic: string, prefix: string, id: Bytes)
    requires Spells(topic, prefix, id, "")
    ensures exists hex :: topic == prefix + hex && IsHexText(hex)
  {}

  lemma PrintedSpells(prefix: string, id: Bytes, suffix: string)
    ensures Spells(prefix + Encode(id) + suffix, prefix, id, suffix)
  {}

  lemma NoStateName(hex: string)
    requires IsHexText(hex)
    ensures !HasSuffix("block-metadata/" + hex, SUFFIX_ACCEPTED) && !HasSuffix("block-metadata/" + hex, SUFFIX_CONFIRMED)
  {
    HexTextHasNo(hex, 'p');
    HexTextHasNo(hex, 'n');
    NoSuffixWithout("block-metadata/", hex, SUFFIX_ACCEPTED, 4);
    NoSuffixWithout("block-metadata/", hex, SUFFIX_CONFIRMED, 2);
  }

  /** A block topic is parsed to `id` exactly when it spells `id`. */
  lemma BlockMetadataSpelling(topic: string, id: BlockID)
    requires id != Zero(36)
    ensures BlockIDFromBlockMetadataTopic(topic) == id <==> Spells(topic, "block-metadata/", id, "")
  {
    PrefixParse(topic, "block-metadata/", id);
    if Spells(topic, "block-metadata/", id, "") {
      SpelledDigits(topic, "block-metadata/", id);
      var hex :| topic == "block-metadata/" + hex && IsHexText(hex);
      NoStateName(hex);
    }
  }

  lemma SpelledHasOneSlash(topic: string, word: string, id: Bytes)
    requires '/' !in word && Spells(topic, word + "/", id, "")
    ensures Count(topic, '/') == 1
  {
    SpelledDigits(topic, word + "/", id);
    var hex :| topic == word + "/" + hex && IsHexText(hex);
    HexTextHasNo(hex, '/');
    OneSlash(word, hex);
  }

  lemma TransactionMetadataSpelling(topic: string, id: TransactionID)
    requires id != Zero(36)
    ensures TransactionIDFromTransactionMetadataTopic(topic) == id <==> Spells(topic, "transaction-metadata/", id, "")
  {
    PrefixParse(topic, "transaction-metadata/", id);
    if Spells(topic, "transaction-metadata/", id, "") {
      assert "transaction-metadata" + "/" == "transaction-metadata/";
      SpelledHasOneSlash(topic, "transaction-metadata", id);
    }
  }

  lemma OutputSpelling(topic: string, id: OutputID)
    requires id != Zero(38)
    ensures OutputIDFromOutputsTopic(topic) == id <==> Spells(topic, "outputs/", id, "")
  {
    PrefixParse(topic, "outputs/", id);
    if Spells(topic, "outputs/", id, "") {
      assert "outputs" + "/" == "outputs/";
      SpelledHasOneSlash(topic, "outputs", id);
    }
  }

  // The included-block-metadata topic, whose parser removes two first occurrences.

  /** The text between prefix and suffix, when removing both leaves neither a slash nor the suffix's character `k`. */
  lemma BetweenPrefixAndSuffix(prefix: string, rest: string, suffix: string, k: nat)
    requires HasSuffix(prefix + rest, suffix) && |prefix| <= k < |suffix|
    requires suffix[0] == '/' && '/' !in suffix[1..]
    requires suffix[k] !in ReplaceFirst(rest, suffix, "") && '/' !in ReplaceFirst(rest, suffix, "")
    ensures rest == ReplaceFirst(rest, suffix, "") + suffix
  {}

  /** Text around an identifier: no part of `suffix` from `prefix`'s length up to `k` can hide in digits. */
  ghost predicate Surrounds(prefix: string, suffix: string, k: nat) {
    && |prefix| <= k < |suffix| && suffix[0] == '/' && '/' !in suffix[1..]
    && !IsDigit(suffix[k]) && suffix[k] != 'x' && suffix[k] != 'X'
  }

  /** Two first occurrences removed. */
  function RemoveBoth(topic: string, prefix: string, suffix: string): string {
    ReplaceFirst(ReplaceFirst(topic, prefix, ""), suffix, "")
  }

  lemma AroundHexText(prefix: string, rest: string, suffix: string, k: nat)
    requires Surrounds(prefix, suffix, k)
    requires HasSuffix(prefix + rest, suffix) && IsHexText(ReplaceFirst(rest, suffix, ""))
    ensures rest == ReplaceFirst(rest, suffix, "") + suffix
  {
    var hex := ReplaceFirst(rest, suffix, "");
    HexTextHasNo(hex, '/');
    HexTextHasNo(hex, suffix[k]);
    BetweenPrefixAndSuffix(prefix, rest, suffix, k);
  }

  lemma ParsedSpells(prefix: string, rest: string, suffix: string, k: nat, id: Bytes)
    requires id != Zero(|id|) && Surrounds(prefix, suffix, k)
    requires HasSuffix(prefix + rest, suffix) && IDFromHex(ReplaceFirst(rest, suffix, ""), |id|) == id
    ensures Spells(prefix + rest, prefix, id, suffix)
  {
    var hex := ReplaceFirst(rest, suffix, "");
    IDFromHexInverse(hex, |id|);
    AroundHexText(prefix, rest, suffix, k);
    assert prefix + rest == prefix + hex + suffix;
  }

  lemma SpelledIsParsed(topic: string, prefix: string, suffix: string, id: Bytes)
    requires suffix != [] && suffix[0] == '/' && Spells(topic, prefix, id, suffix)
    ensures HasPrefix(topic, prefix) && HasSuffix(topic, suffix) && IDFromHex(RemoveBoth(topic, prefix, suffix), |id|) == id
  {
    var hex :| topic == prefix + hex + suffix && Lower(hex) == Encode(id);
    DecodeAnyCase(hex, id);
    HexTextHasNo(hex, '/');
    assert topic == prefix + (hex + suffix);
    RemovePrefix(prefix, hex + suffix);
    RemoveAtEnd(hex, suffix);
    assert topic[|topic| - |suffix|..] == suffix;
  }

  lemma RemoveAtEnd(text: string, suffix: string)
    requires suffix != [] && suffix[0] !in text
    ensures ReplaceFirst(text + suffix, suffix, "") == text
  {
    ReplaceFirstAfter(text, suffix, "", "");
    assert text + suffix + "" == text + suffix && text + "" + "" == text;
  }

  lemma IncludedSpells(topic: string, id: TransactionID)
    requires id != Zero(36) && TransactionIDFromTransactionsIncludedBlockMetadataTopic(topic) == id
    ensures Spells(topic, "transactions/", id, "/included-block-metadata")
  {
    var rest := topic[13..];
    assert topic == "transactions/" + rest;
    RemovePrefix("transactions/", rest);
    IncludedSurrounds();
    ParsedSpells("transactions/", rest, "/included-block-metadata", 14, id);
  }

  lemma IncludedSurrounds()
    ensures Surrounds("transactions/", "/included-block-metadata", 14)
  {}

  lemma IncludedSpelling(topic: string, id: TransactionID)
    requires id != Zero(36)
    ensures TransactionIDFromTransactionsIncludedBlockMetadataTopic(topic) == id
       <==> Spells(topic, "transactions/", id, "/included-block-metadata")
  {
    if TransactionIDFromTransactionsIncludedBlockMetadataTopic(topic) == id {
      IncludedSpells(topic, id);
    } else if Spells(topic, "transactions/", id, "/included-block-metadata") {
      SpelledIsParsed(topic, "transactions/", "/included-block-metadata", id);
    }
  }

  // Round trips.

  lemma BlockRoundTrip(id: BlockID)
    ensures BlockIDFromBlockMetadataTopic(GetTopicBlockMetadata(id)) == id
  {
    var t := GetTopicBlockMetadata(id);
    assert t == "block-metadata/" + Encode(id) + "";
    PrintedSpells("block-metadata/", id, "");
    if id != Zero(36) {
      BlockMetadataSpelling(t, id);
    } else {
      RemovePrefix("block-metadata/", Encode(id));
      IDFromEncoded(id);
    }
  }

  lemma TransactionMetadataRoundTrip(id: TransactionID)
    ensures TransactionIDFromTransactionMetadataTopic(GetTopicTransactionMetadata(id)) == id
  {
    var t := GetTopicTransactionMetadata(id);
    assert t == "transaction-metadata/" + Encode(id) + "";
    PrintedSpells("transaction-metadata/", id, "");
    if id != Zero(36) {
      TransactionMetadataSpelling(t, id);
    } else {
      RemovePrefix("transaction-metadata/", Encode(id));
      IDFromEncoded(id);
    }
  }

  lemma OutputRoundTrip(id: OutputID)
    ensures OutputIDFromOutputsTopic(GetTopicOutput(id)) == id
  {
    var t := GetTopicOutput(id);
    assert t == "outputs/" + Encode(id) + "";
    PrintedSpells("outputs/", id, "");
    if id != Zero(38) {
      OutputSpelling(t, id);
    } else {
      RemovePrefix("outputs/", Encode(id));
      IDFromEncoded(id);
    }
  }

  lemma IncludedRoundTrip(id: TransactionID)
    ensures TransactionIDFromTransactionsIncludedBlockMetadataTopic(GetTopicTransactionsIncludedBlockMetadata(id)) == id
  {
    var t := GetTopicTransactionsIncludedBlockMetadata(id);
    PrintedSpells("transactions/", id, "/included-block-metadata");
    SpelledIsParsed(t, "transactions/", "/included-block-metadata", id);
  }

  /** No topic holds both an output and a transaction, nor two kinds of transaction. */
  lemma AtMostOneIdentifier(topic: string)
    ensures var a := TransactionIDFromTransactionsIncludedBlockMetadataTopic(topic) != Zero(36);
            var b := TransactionIDFromTransactionMetadataTopic(topic) != Zero(36);
            var c := OutputIDFromOutputsTopic(topic) != Zero(38);
            !(a && b) && !(a && c) && !(b && c)
  {
    assert HasPrefix(topic, "transactions/") ==> topic[0] == 't' && topic[11] == 's';
    assert HasPrefix(topic, "transaction-metadata/") ==> topic[0] == 't' && topic[11] == '-';
    assert HasPrefix(topic, "outputs/") ==> topic[0] == 'o';
  }
}
