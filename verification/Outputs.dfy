/** The topics that an output is published on: its chain topic and its unlock-condition topics (pkg/mqtt/topics.go). */
module Outputs {
  import opened Wrappers
  import opened GoStrings
  import opened Hex
  import opened Topics

  datatype Condition = Address | StorageReturn | Expiration | StateController | Governor | ImmutableAccount | Any
  {
    /** `api.EventAPIUnlockCondition` */
    function Name(): (name: string)
      ensures '/' !in name && '{' !in name
    {
      match this
      case Address => "address"
      case StorageReturn => "storage-return"
      case Expiration => "expiration"
      case StateController => "state-controller"
      case Governor => "governor"
      case ImmutableAccount => "immutable-account"
      case Any => "+"
    }

    function Rank(): nat {
      match this
      case Address => 0
      case StorageReturn => 1
      case Expiration => 2
      case StateController => 3
      case Governor => 4
      case ImmutableAccount => 5
      case Any => 6
    }
  }

  /** The address of each unlock condition that the output has, as Bech32 text. */
  datatype Conditions = Conditions(
    address: Option<string>,
    storageReturn: Option<string>,
    expiration: Option<string>,
    stateController: Option<string>,
    governor: Option<string>,
    immutableAccount: Option<string>)

  datatype Chain =
    | BasicOutput
    | AccountOutput(id: Bytes)
    | AnchorOutput(id: Bytes)
    | FoundryOutput(foundry: Option<Bytes>)
    | NFTOutput(id: Bytes)
    | DelegationOutput(id: Bytes)

  /** Bech32 texts of chain addresses, and chain identifiers derived from an output. */
  datatype Codec = Codec(
    accountAddress: Bytes -> string,
    anchorAddress: Bytes -> string,
    nftAddress: Bytes -> string,
    accountID: OutputID -> Bytes,
    anchorID: OutputID -> Bytes,
    nftID: OutputID -> Bytes,
    delegationID: OutputID -> Bytes)

  function GetTopicOutputsByUnlockConditionAndAddress(condition: Condition, address: string): (t: string)
    ensures t == "outputs/unlock/" + condition.Name() + "/" + address
  {
    UnlockTopicText(condition.Name(), address);
    Fill(Fill(UNLOCK_OUTPUTS, "condition", condition.Name()), "address", address)
  }

  lemma UnlockTopicText(name: string, address: string)
    requires '{' !in name
    ensures Fill(Fill(UNLOCK_OUTPUTS, "condition", name), "address", address) == "outputs/unlock/" + name + "/" + address
  {
    var pre, post := "outputs/unlock/", "/" + Parameter("address");
    assert UNLOCK_OUTPUTS == pre + Parameter("condition") + post;
    FillAt(pre, "condition", post, name);
    assert pre + name + post == (pre + name + "/") + Parameter("address");
    FillAtEnd(pre + name + "/", "address", address);
  }

  lemma NamesDistinct(c: Condition, d: Condition)
    requires c.Name() == d.Name()
    ensures c == d
  {}

  /** The template fill is injective, whatever the addresses. */
  lemma UnlockTopicInjective(c: Condition, a: string, d: Condition, b: string)
    requires GetTopicOutputsByUnlockConditionAndAddress(c, a) == GetTopicOutputsByUnlockConditionAndAddress(d, b)
    ensures c == d && a == b
  {
    SplitAtSlashBehind("outputs/unlock/", c.Name(), a, d.Name(), b);
    NamesDistinct(c, d);
  }

  // Unlock-condition topics.

  type Unlock = (Condition, string)

  function Opt(condition: Condition, address: Option<string>): seq<Unlock> {
    if address.Some? then [(condition, address.value)] else []
  }

  /** The conditions that the output has, in the order in which they are looked at. */
  function Present(c: Conditions): seq<Unlock> {
    Opt(Address, c.address) + Opt(StorageReturn, c.storageReturn) + Opt(Expiration, c.expiration)
    + Opt(StateController, c.stateController) + Opt(Governor, c.governor) + Opt(ImmutableAccount, c.immutableAccount)
  }

  function AddressesOf(unlocks: seq<Unlock>): set<string> {
    set u | u in unlocks :: u.1
  }

  function TopicOf(u: Unlock): string {
    GetTopicOutputsByUnlockConditionAndAddress(u.0, u.1)
  }

  function TopicsOf(unlocks: seq<Unlock>): (topics: seq<string>)
    ensures |topics| == |unlocks| && forall i :: 0 <= i < |unlocks| ==> topics[i] == TopicOf(unlocks[i])
  {
    seq(|unlocks|, i requires 0 <= i < |unlocks| => TopicOf(unlocks[i]))
  }

  function AnyOf(order: seq<string>): (unlocks: seq<Unlock>)
    ensures |unlocks| == |order| && forall i :: 0 <= i < |order| ==> unlocks[i] == (Any, order[i])
  {
    seq(|order|, i requires 0 <= i < |order| => (Any, order[i]))
  }

  predicate NoDup<T(==)>(s: seq<T>) {
    forall i, j :: 0 <= i < j < |s| ==> s[i] != s[j]
  }

  /** An order in which the keys of a map may be visited. */
  ghost predicate IsOrder(order: seq<string>, addresses: set<string>) {
    NoDup(order) && forall a :: a in order <==> a in addresses
  }

  /** The unlock-condition topics, when the addresses are visited in `order`. */
  function UnlockTopics(c: Conditions, order: seq<string>): seq<string> {
    TopicsOf(Present(c) + AnyOf(order))
  }

  method GetUnlockConditionTopicsForOutput(c: Conditions) returns (topics: seq<string>, order: seq<string>)
    ensures IsOrder(order, AddressesOf(Present(c)))
    ensures topics == UnlockTopics(c, order)
  {
    topics := [];
    // every address met so far, for the topics of any condition
    var addresses: set<string> := {};
    topics, addresses := Visit(topics, addresses, [], Address, c.address);
    ghost var seen := [] + Opt(Address, c.address);
    topics, addresses := Visit(topics, addresses, seen, StorageReturn, c.storageReturn);
    seen := seen + Opt(StorageReturn, c.storageReturn);
    topics, addresses := Visit(topics, addresses, seen, Expiration, c.expiration);
    seen := seen + Opt(Expiration, c.expiration);
    topics, addresses := Visit(topics, addresses, seen, StateController, c.stateController);
    seen := seen + Opt(StateController, c.stateController);
    topics, addresses := Visit(topics, addresses, seen, Governor, c.governor);
    seen := seen + Opt(Governor, c.governor);
    topics, addresses := Visit(topics, addresses, seen, ImmutableAccount, c.immutableAccount);
    seen := seen + Opt(ImmutableAccount, c.immutableAccount);
    assert seen == Present(c);
    topics, order := VisitAll(topics, addresses, seen);
  }

  /** What is done for each condition that the output may have. */
  method Visit(topics: seq<string>, addresses: set<string>, ghost seen: seq<Unlock>, condition: Condition, address: Option<string>)
    returns (topics': seq<string>, addresses': set<string>)
    requires topics == TopicsOf(seen) && addresses == AddressesOf(seen)
    ensures topics' == TopicsOf(seen + Opt(condition, address)) && addresses' == AddressesOf(seen + Opt(condition, address))
  {
    topics', addresses' := topics, addresses;
    assert seen + [] == seen;
    if address.Some? {
      topics' := topics + [GetTopicOutputsByUnlockConditionAndAddress(condition, address.value)];
      addresses' := addresses + {address.value};
      AddressesSnoc(seen, (condition, address.value));
    }
  }

  lemma AddressesSnoc(seen: seq<Unlock>, u: Unlock)
    ensures AddressesOf(seen + [u]) == AddressesOf(seen) + {u.1}
  {}

  /** The loop over the address map, which visits its keys in any order. */
  method VisitAll(topics: seq<string>, addresses: set<string>, ghost seen: seq<Unlock>)
    returns (topics': seq<string>, order: seq<string>)
    requires topics == TopicsOf(seen)
    ensures IsOrder(order, addresses)
    ensures topics' == TopicsOf(seen + AnyOf(order))
  {
    topics', order := topics, [];
    assert seen + AnyOf([]) == seen;
    var rest := addresses;
    while rest != {}
      invariant rest <= addresses && IsOrder(order, addresses - rest)
      invariant topics' == TopicsOf(seen + AnyOf(order))
      decreases rest
    {
      var a :| a in rest;
      topics' := topics' + [GetTopicOutputsByUnlockConditionAndAddress(Any, a)];
      assert seen + AnyOf(order + [a]) == seen + AnyOf(order) + [(Any, a)];
      order := order + [a];
      rest := rest - {a};
    }
  }

  function Size(address: Option<string>): nat {
    if address.Some? then 1 else 0
  }

  function CountConditions(c: Conditions): nat {
    Size(c.address) + Size(c.storageReturn) + Size(c.expiration) + Size(c.stateController) + Size(c.governor) + Size(c.immutableAccount)
  }

  /** Unlocks of different conditions, with ranks from `lo` up to `hi`. */
  predicate Ranked(unlocks: seq<Unlock>, lo: nat, hi: nat) {
    (forall i :: 0 <= i < |unlocks| ==> lo <= unlocks[i].0.Rank() < hi) && NoDup(unlocks)
  }

  lemma OptRanked(condition: Condition, address: Option<string>)
    ensures Ranked(Opt(condition, address), condition.Rank(), condition.Rank() + 1) && |Opt(condition, address)| == Size(address)
  {}

  lemma RankedConcat(a: seq<Unlock>, b: seq<Unlock>, lo: nat, mid: nat, hi: nat)
    requires Ranked(a, lo, mid) && Ranked(b, mid, hi) && lo <= mid <= hi
    ensures Ranked(a + b, lo, hi)
  {}

  lemma PresentRanked(c: Conditions)
    ensures Ranked(Present(c), 0, 6) && |Present(c)| == CountConditions(c)
  {
    var a, b, d := Opt(Address, c.address), Opt(StorageReturn, c.storageReturn), Opt(Expiration, c.expiration);
    var e, f, g := Opt(StateController, c.stateController), Opt(Governor, c.governor), Opt(ImmutableAccount, c.immutableAccount);
    OptRanked(Address, c.address);
    OptRanked(StorageReturn, c.storageReturn);
    OptRanked(Expiration, c.expiration);
    OptRanked(StateController, c.stateController);
    OptRanked(Governor, c.governor);
    OptRanked(ImmutableAccount, c.immutableAccount);
    RankedConcat(a, b, 0, 1, 2);
    RankedConcat(a + b, d, 0, 2, 3);
    RankedConcat(a + b + d, e, 0, 3, 4);
    RankedConcat(a + b + d + e, f, 0, 4, 5);
    RankedConcat(a + b + d + e + f, g, 0, 5, 6);
  }

  lemma AnyRanked(order: seq<string>)
    requires NoDup(order)
    ensures Ranked(AnyOf(order), 6, 7)
  {}

  /** Different unlocks have different topics. */
  lemma TopicsOfNoDup(unlocks: seq<Unlock>)
    requires NoDup(unlocks)
    ensures NoDup(TopicsOf(unlocks))
  {
    forall i, j | 0 <= i < j < |unlocks|
      ensures TopicsOf(unlocks)[i] != TopicsOf(unlocks)[j]
    {
      if TopicOf(unlocks[i]) == TopicOf(unlocks[j]) {
        UnlockTopicInjective(unlocks[i].0, unlocks[i].1, unlocks[j].0, unlocks[j].1);
      }
    }
  }

  lemma {:induction false} OrderLength(order: seq<string>, addresses: set<string>)
    requires IsOrder(order, addresses)
    ensures |order| == |addresses|
  {
    if order == [] {
      assert addresses == {};
    } else {
      var n := |order| - 1;
      assert order == order[..n] + [order[n]];
      OrderLength(order[..n], addresses - {order[n]});
    }
  }

  /** The topics, as a set, and how many they are: one for each condition and one for each distinct address. */
  lemma UnlockTopicsExact(c: Conditions, order: seq<string>)
    requires IsOrder(order, AddressesOf(Present(c)))
    ensures NoDup(UnlockTopics(c, order))
    ensures |UnlockTopics(c, order)| == CountConditions(c) + |AddressesOf(Present(c))|
    ensures forall condition, address ::
      GetTopicOutputsByUnlockConditionAndAddress(condition, address) in UnlockTopics(c, order)
      <==> (condition, address) in Present(c) || (condition == Any && exists u :: u in Present(c) && u.1 == address)
  {
    PresentRanked(c);
    AnyRanked(order);
    RankedConcat(Present(c), AnyOf(order), 0, 6, 7);
    TopicsOfNoDup(Present(c) + AnyOf(order));
    OrderLength(order, AddressesOf(Present(c)));
    forall condition, address
      ensures GetTopicOutputsByUnlockConditionAndAddress(condition, address) in UnlockTopics(c, order)
         <==> (condition, address) in Present(c) || (condition == Any && exists u :: u in Present(c) && u.1 == address)
    {
      UnlockTopicMember(Present(c) + AnyOf(order), condition, address);
      AnyMember(order, condition, address);
      assert address in order <==> address in AddressesOf(Present(c));
    }
  }

  /** Some unlock condition of the output has this address. */
  predicate Uses(c: Conditions, a: string) {
    || c.address == Some(a) || c.storageReturn == Some(a) || c.expiration == Some(a)
    || c.stateController == Some(a) || c.governor == Some(a) || c.immutableAccount == Some(a)
  }

  /** What the output has under a condition. */
  function Field(c: Conditions, condition: Condition): Option<string> {
    match condition
    case Address => c.address
    case StorageReturn => c.storageReturn
    case Expiration => c.expiration
    case StateController => c.stateController
    case Governor => c.governor
    case ImmutableAccount => c.immutableAccount
    case Any => None
  }

  lemma PresentMember(c: Conditions, condition: Condition, a: string)
    ensures (condition, a) in Present(c) <==> Field(c, condition) == Some(a)
  {}

  lemma PresentUses(c: Conditions, a: string)
    ensures Uses(c, a) <==> exists u :: u in Present(c) && u.1 == a
  {
    if Uses(c, a) {
      var condition :| Field(c, condition) == Some(a);
      PresentMember(c, condition, a);
    }
    forall u | u in Present(c) && u.1 == a
      ensures Uses(c, a)
    {
      PresentMember(c, u.0, a);
    }
  }

  lemma UnlockTopicOfField(c: Conditions, order: seq<string>, condition: Condition, a: string)
    requires IsOrder(order, AddressesOf(Present(c)))
    ensures TopicOf((condition, a)) in UnlockTopics(c, order) <==> if condition == Any then Uses(c, a) else Field(c, condition) == Some(a)
  {
    UnlockTopicsExact(c, order);
    PresentMember(c, condition, a);
    PresentUses(c, a);
  }

  function Named(name: string, a: string): string {
    "outputs/unlock/" + name + "/" + a
  }

  /** An output is published on `outputs/unlock/`, a condition's name and an address exactly if it has this condition with this
      address, and under `+` exactly if any of its conditions has the address. */
  lemma UnlockFields(c: Conditions, order: seq<string>, a: string)
    requires IsOrder(order, AddressesOf(Present(c)))
    ensures Named("address", a) in UnlockTopics(c, order) <==> c.address == Some(a)
    ensures Named("storage-return", a) in UnlockTopics(c, order) <==> c.storageReturn == Some(a)
    ensures Named("expiration", a) in UnlockTopics(c, order) <==> c.expiration == Some(a)
    ensures Named("state-controller", a) in UnlockTopics(c, order) <==> c.stateController == Some(a)
    ensures Named("governor", a) in UnlockTopics(c, order) <==> c.governor == Some(a)
    ensures Named("immutable-account", a) in UnlockTopics(c, order) <==> c.immutableAccount == Some(a)
    ensures Named("+", a) in UnlockTopics(c, order) <==> Uses(c, a)
  {
    forall condition: Condition
      ensures Named(condition.Name(), a) in UnlockTopics(c, order) <==> if condition == Any then Uses(c, a) else Field(c, condition) == Some(a)
    {
      UnlockTopicOfField(c, order, condition, a);
    }
    assert Named(Address.Name(), a) == Named("address", a) && Named(StorageReturn.Name(), a) == Named("storage-return", a);
    assert Named(Expiration.Name(), a) == Named("expiration", a) && Named(StateController.Name(), a) == Named("state-controller", a);
    assert Named(Governor.Name(), a) == Named("governor", a) && Named(ImmutableAccount.Name(), a) == Named("immutable-account", a);
    assert Named(Any.Name(), a) == Named("+", a);
  }

  lemma UnlockTopicMember(unlocks: seq<Unlock>, condition: Condition, address: string)
    ensures GetTopicOutputsByUnlockConditionAndAddress(condition, address) in TopicsOf(unlocks) <==> (condition, address) in unlocks
  {
    var t := GetTopicOutputsByUnlockConditionAndAddress(condition, address);
    if t in TopicsOf(unlocks) {
      var i :| 0 <= i < |unlocks| && TopicsOf(unlocks)[i] == t;
      UnlockTopicInjective(unlocks[i].0, unlocks[i].1, condition, address);
    }
    if (condition, address) in unlocks {
      var i :| 0 <= i < |unlocks| && unlocks[i] == (condition, address);
      assert TopicsOf(unlocks)[i] == t;
    }
  }

  lemma AnyMember(order: seq<string>, condition: Condition, address: string)
    ensures (condition, address) in AnyOf(order) <==> condition == Any && address in order
  {}

  // Chain topics.

  function OrImplicit(id: Bytes, implicit: OutputID -> Bytes, output: OutputID): Bytes {
    if id == Zero(|id|) then implicit(output) else id
  }

  function GetChainTopicsForOutput(codec: Codec, output: OutputID, chain: Chain): seq<string> {
    match chain
    case AccountOutput(id) => [GetTopicAccountOutputs(codec.accountAddress(OrImplicit(id, codec.accountID, output)))]
    case AnchorOutput(id) => [GetTopicAnchorOutputs(codec.anchorAddress(OrImplicit(id, codec.anchorID, output)))]
    case FoundryOutput(id) => if id.Some? then [GetTopicFoundryOutputs(id.value)] else []
    case NFTOutput(id) => [GetTopicNFTOutputs(codec.nftAddress(OrImplicit(id, codec.nftID, output)))]
    case DelegationOutput(id) => [GetTopicDelegationOutputs(OrImplicit(id, codec.delegationID, output))]
    case BasicOutput => []
  }

  /** The chain of an output, with the identifier that it has from then on. */
  function Continued(codec: Codec, output: OutputID, chain: Chain): Chain {
    match chain
    case AccountOutput(id) => AccountOutput(OrImplicit(id, codec.accountID, output))
    case AnchorOutput(id) => AnchorOutput(OrImplicit(id, codec.anchorID, output))
    case NFTOutput(id) => NFTOutput(OrImplicit(id, codec.nftID, output))
    case DelegationOutput(id) => DelegationOutput(OrImplicit(id, codec.delegationID, output))
    case _ => chain
  }

  /** All bytes are zero, which marks an output that starts its chain. */
  predicate Unset(id: Bytes) {
    forall k :: 0 <= k < |id| ==> id[k] == 0
  }

  lemma UnsetIsZero(id: Bytes)
    ensures Unset(id) <==> id == Zero(|id|)
  {}

  /** The text of each kind's topic, with the identifier that the output carries or, where that is unset, the one derived from the output. */
  lemma ChainTopicTexts(codec: Codec, output: OutputID, id: Bytes)
    ensures GetChainTopicsForOutput(codec, output, AccountOutput(id))
         == ["outputs/account/" + codec.accountAddress(if Unset(id) then codec.accountID(output) else id)]
    ensures GetChainTopicsForOutput(codec, output, AnchorOutput(id))
         == ["outputs/anchor/" + codec.anchorAddress(if Unset(id) then codec.anchorID(output) else id)]
    ensures GetChainTopicsForOutput(codec, output, NFTOutput(id))
         == ["outputs/nft/" + codec.nftAddress(if Unset(id) then codec.nftID(output) else id)]
    ensures GetChainTopicsForOutput(codec, output, DelegationOutput(id))
         == ["outputs/delegation/" + Encode(if Unset(id) then codec.delegationID(output) else id)]
    ensures GetChainTopicsForOutput(codec, output, FoundryOutput(Some(id))) == ["outputs/foundry/" + Encode(id)]
    ensures GetChainTopicsForOutput(codec, output, FoundryOutput(None)) == [] && GetChainTopicsForOutput(codec, output, BasicOutput) == []
  {
    UnsetIsZero(id);
  }

  /** Derived identifiers are not zero. */
  ghost predicate DerivesNonZero(codec: Codec, output: OutputID) {
    && codec.accountID(output) != Zero(|codec.accountID(output)|)
    && codec.anchorID(output) != Zero(|codec.anchorID(output)|)
    && codec.nftID(output) != Zero(|codec.nftID(output)|)
    && codec.delegationID(output) != Zero(|codec.delegationID(output)|)
  }

  /** The output that starts a chain, whose identifier is still zero, is published on the topic of every later output of the chain. */
  lemma ChainKeepsItsTopic(codec: Codec, first: OutputID, later: OutputID, chain: Chain)
    requires DerivesNonZero(codec, first)
    ensures GetChainTopicsForOutput(codec, first, chain) == GetChainTopicsForOutput(codec, later, Continued(codec, first, chain))
  {}

  /** An output has a chain topic unless it is a basic output or a foundry without an identifier, and never more than one. */
  lemma ChainTopicCount(codec: Codec, output: OutputID, chain: Chain)
    ensures |GetChainTopicsForOutput(codec, output, chain)| == if chain.BasicOutput? || (chain.FoundryOutput? && chain.foundry.None?) then 0 else 1
  {}

  /** Chains of different kinds do not share topics. */
  lemma ChainKindsApart(codec: Codec, a: OutputID, x: Chain, b: OutputID, y: Chain, t: string)
    requires t in GetChainTopicsForOutput(codec, a, x) && t in GetChainTopicsForOutput(codec, b, y)
    ensures (x.AccountOutput? <==> y.AccountOutput?) && (x.AnchorOutput? <==> y.AnchorOutput?) && (x.FoundryOutput? <==> y.FoundryOutput?)
    ensures (x.NFTOutput? <==> y.NFTOutput?) && (x.DelegationOutput? <==> y.DelegationOutput?)
  {
    KindMark(codec, a, x, t);
    KindMark(codec, b, y, t);
  }

  lemma KindMark(codec: Codec, output: OutputID, chain: Chain, t: string)
    requires t in GetChainTopicsForOutput(codec, output, chain)
    ensures |t| >= 12
    ensures chain.AccountOutput? <==> t[9] == 'c'
    ensures chain.AnchorOutput? <==> t[9] == 'n'
    ensures chain.FoundryOutput? <==> t[9] == 'o'
    ensures chain.NFTOutput? <==> t[9] == 'f'
    ensures chain.DelegationOutput? <==> t[9] == 'e'
  {}
}
