# INX-MQTT: a verified model

INX-MQTT lets MQTT clients follow the events of an IOTA node. Clients subscribe to topics; the server keeps one upstream
gRPC stream of each kind open while some client needs it, and publishes every upstream event on each of its topics that has
subscribers. This project models the four parts that make that work and proves what they promise together:

- **The listener protocol** (`Listeners`, `Protocol`, `Server`, `ServerRuns`). A map from streams to counted subscriptions is
  changed under a lock by subscribe events, unsubscribe events and ending goroutines. `Listeners` is a transition system
  whose steps are the single critical sections, so that its runs are all interleavings, with listener failures and the end of
  the parent context among them; `Protocol` holds the inductive invariants and what follows for every run. `Server` is the
  same map updated in place, with its methods tied to the transition system; `ServerRuns` shows that the handlers are runs
  of it.
- **Topics and routing** (`GoStrings`, `Hex`, `Topics`, `Routing`, `Outputs`, `Events`, `Handlers`, `Coverage`). Real strings,
  printers and parsers of topics, the two classifications of a topic (on subscribe, on unsubscribe), and the topics that
  each event is published on.
- **Publishing on demand** (`Publish`, `TopicLists`, `Inclusion`). Payload thunks that run at most once and only if somebody
  listens, over arbitrary answers of the subscription manager and of the node.
- **Topic patterns and access** (`Regexes`, `Wildcard`, `Access`, `PublicTopics`). The compiler from `*` patterns to
  regular-expression text, its parser and meaning, and the access decisions built on it.

`Delivery` joins the first three: in a quiet run a live subscriber always has a live listener, and that listener publishes
on exactly the subscribed topic, whatever becomes of the other publish calls of the event.

`dafny verify dfyconfig.toml` verifies everything.

## Where the code falls short

Three properties that one would expect hold only under a condition, and the project proves which.

- `onUnsubscribeTopic` stops both block-metadata streams for *any* topic that starts with `block-metadata/`, while
  `onSubscribeTopic` starts them only if the rest is a block identifier (pkg/mqtt/server.go:231-241 and 301-305). The two
  agree exactly on topics that are not `Unparsable` (`Routing.RoutesAgree`, `Routing.UnparsableExact`), a subscribe and
  unsubscribe pair restores the map exactly if the topic is parsable or none of the two streams is counted
  (`ServerRuns.UnsubscribeUndoesSubscribe`), and a client that visits an unparsable topic can take the listener away from
  another client (`Protocol.UnparsableVisitStarvesSubscriber`).
- The publish loop takes a nil payload for an unset one (pkg/mqtt/publish.go:25). A thunk runs at most once in a pass exactly if
  at most one topic is wanted or its first result is not a nil payload (`Publish.PassIsOnDemand`); `Publish.NilIsRecomputed`
  counts the runs of every thunk, and `Publish.NilRunsTwice` is a failing input. Of the server's thunks only the raw one of
  blocks hands on data unchecked (pkg/mqtt/publish.go:154-156); whether the node bridge ever passes it nil raw data is not part
  of this model, and there a second run would only return nil again. The others return what an encoder made.
- Parsers accept hexadecimal digits of either case, printers write lower case. So a subscriber of, say, `block-metadata/0xAB...`
  starts listeners and a fetch, but everything is published on the lower-case topic, and the fetch's answer reaches the subscriber
  exactly if its topic has no upper-case letter (`Routing.PollAnswersSubscriber`).

## Assumptions

- Identifiers from `rand.Int()` differ from those of the goroutines of the same stream that have not cleaned up yet.
  `Protocol.ReusedIdentifierOrphansListener` shows that the protocol needs this.
- The subscription manager reports an unsubscription of a (client, topic) pair only for a subscription that was reported, and
  after its handler returned. Each occurrence of a pair has its own key, so the live subscriptions form a multiset.
- The constants of package `api` of iota.go are not part of this model's sources. They are declared in `Topics`, consistent
  with the literals in pkg/mqtt/topics.go and pkg/mqtt/server.go: templates hold `{parameter}` marks, filling one replaces its
  first occurrence, and the unlock conditions are named as in `Outputs.UnlockFields`.
- Identifiers have 36 (blocks, transactions) or 38 bytes (outputs), the output index is little-endian behind the transaction,
  and text is decoded to an identifier only if it has exactly that many bytes behind `0x` or `0X`.
- Bech32 texts hold neither slashes (for the duplicate-freedom of topic lists) nor newlines (for the public topics). The
  chain-topic lemma about first outputs assumes that derived identifiers are not zero.
- The node answers a successful metadata fetch with a value, never nil, and blocks in accepted or confirmed events have
  non-zero identifiers.
- Lower-casing beyond ASCII is a table that yields no ASCII upper-case letters and no new newlines.
- Go strings are sequences of characters, so pattern text and topics are valid UTF-8.
- `HasSubscribers` agrees with the live subscriptions in the delivery theorem only; the publishing theorems hold for any answers.

## Model

| member | source | states |
|---|---|---|
| `Server.Server.AddGRPCSubscription` | pkg/mqtt/server.go:323-346 | The map gains one count of the stream, or a new record with count 1, a fresh uncancelled context and the drawn identifier; the record is returned only in the second case. Nothing else changes. |
| `Server.Server.RemoveGRPCSubscription` | pkg/mqtt/server.go:348-356 | The record is deleted exactly if its identifier is the given one; nothing else changes. |
| `Server.Server.StopListenIfNeeded` | pkg/mqtt/server.go:381-397 | One count less; at zero the record's own context is cancelled and the record deleted; an unrecorded stream changes nothing. |
| `Server.Server.StartListenIfNeeded` | pkg/mqtt/server.go:358-379 | The effect of one start call on the map. A goroutine is spawned exactly if the stream was not recorded, and gets the new record with its fresh context; the abstract table records it. |
| `Server.Server.FinishListening` | pkg/mqtt/server.go:365-378 | The end of a goroutine deletes the record that carries its identifier and no other. |
| `Server.Server.OnSubscribeTopic` | pkg/mqtt/server.go:193-267 | The start calls of the route that `Routing.StartRouteExact` determines, in order, on the map, and the fetches that `Routing.PollsExact` determines. |
| `Server.Server.OnUnsubscribeTopic` | pkg/mqtt/server.go:269-321 | The stop calls of the route that `Routing.StopRouteExact` determines, in order, on the map. |
| `ServerRuns.SubscribeHandlerIsRun` | pkg/mqtt/server.go:193-267 | From any reachable state, what the handler does to the map is what some run of the protocol does that makes the subscription live; after a quiet run it is a quiet run. |
| `ServerRuns.UnsubscribeHandlerIsRun` | pkg/mqtt/server.go:269-321 | Likewise for taking a live subscription away; after a quiet run it is a quiet run unless the topic is unparsable. |
| `ServerRuns.UnsubscribeUndoesSubscribe` | pkg/mqtt/server.go:193-321 | A subscribe and unsubscribe pair restores the map exactly if the topic is not an unparsable block topic or neither stream that such a topic stops is counted. |
| `Listeners.AddKeepsTableInv` | pkg/mqtt/server.go:323-346 | A start call with a fresh identifier keeps the table invariant: counts are positive, a record's goroutine is alive and carries its identifier, every uncancelled goroutine that has not cleaned up owns the record of its stream, and identifiers of such goroutines differ. |
| `Listeners.StopKeepsTableInv` | pkg/mqtt/server.go:381-397 | A stop call keeps the table invariant. |
| `Listeners.RemoveKeepsTableInv` | pkg/mqtt/server.go:348-378 | The clean-up of a goroutine keeps the table invariant. |
| `Listeners.RemoveOnlyOwnEntry` | pkg/mqtt/server.go:348-356 | Comparing identifiers deletes a record exactly if the finished goroutine owns it. |
| `Protocol.StepUnits` | pkg/mqtt/server.go:193-321 | How each step changes the number of subscriptions that hold a stream, half-processed events counted by the calls already made. |
| `Protocol.RunKeepsInv` | pkg/mqtt/server.go:193-397 | Every run keeps the invariants; quiet runs keep the exact ones. |
| `Protocol.AtMostOneRunningListener` | pkg/mqtt/server.go:323-397 | In every run, two uncancelled, unreturned goroutines of a stream are the same one, and it is the recorded one. |
| `Protocol.LateRemoveSparesNewerEntry` | pkg/mqtt/server.go:348-378 | In every run, a late clean-up deletes the record that its goroutine owns and leaves every other record as it was. |
| `Protocol.NoOrphans` | pkg/mqtt/server.go:193-397 | In every run, a record counts at least one and at most the subscriptions that hold its stream; a stream that nobody holds has no record and no running listener. |
| `Protocol.AllGone` | pkg/mqtt/server.go:193-397 | When all subscriptions are gone, the map is empty and every goroutine is cancelled or has cleaned up. |
| `Protocol.ExactCounts` | pkg/mqtt/server.go:193-397 | Between events of a quiet run, the recorded streams are exactly those that some live subscription needs, each with the number of live subscriptions that need it. |
| `Protocol.LiveSubscriberHasListener` | pkg/mqtt/server.go:193-397 | Between events of a quiet run, each stream that a live subscription needs has a recorded, running listener whose context is not done. |
| `Protocol.QuietRunIsRun` | pkg/mqtt/server.go:323-397 | Quiet runs are runs, so everything about all runs holds for them. |
| `Protocol.ListenersAreFree` | pkg/mqtt/server.go:358-379 | After every run a spawned goroutine can start to listen, a listening one can return, cancelled or not, a returned one can clean up, and the parent context can be cancelled. In quiet runs exactly the cancelled ones can return, and the parent context cannot be cancelled. |
| `Protocol.CallsAreFree` | pkg/mqtt/server.go:323-397 | After every run, the next call of each half-processed event can come next, and each live subscription can be taken back; so handlers interleave freely. |
| `Protocol.FailingListenerDropsEntry` | pkg/mqtt/server.go:348-378 | After every run, the recorded and listening goroutine of a stream can fail: it returns uncancelled, its clean-up drops the record, and all subscriptions stay. |
| `Protocol.StopUndoesAdd` | pkg/mqtt/server.go:323-397 | A stop call after a start call restores the map, and cancels a listener that the start call spawned. |
| `Protocol.ReusedIdentifierOrphansListener` | pkg/mqtt/server.go:337-356 | With a reused identifier, a late clean-up deletes a newer record and leaves its listener running unrecorded. |
| `Routing.UnparsableExact` | pkg/mqtt/topics.go:11-23 | For every string, a topic is unparsable exactly if it has the prefix `block-metadata/`, is neither state name and does not spell any non-empty block identifier. |
| `Protocol.UnparsableVisitTakesCounts` | pkg/mqtt/server.go:231-241 | From every reachable state, a visit to an unparsable topic leaves the subscriptions alone but takes a count from both block-metadata streams. |
| `Protocol.UnparsableVisitStarvesSubscriber` | pkg/mqtt/server.go:301-305 | So a run without failures reaches a state in which a live subscriber's stream has no record. |
| `Routing.RoutesAgree` | pkg/mqtt/server.go:193-321 | For every string, subscribing starts what unsubscribing stops exactly if the topic is not unparsable; otherwise nothing is started and both block-metadata streams are stopped. |
| `Routing.RoutesShape` | pkg/mqtt/server.go:193-321 | For every string, no stream is started or stopped twice, and what is started is stopped. |
| `Routing.StartRouteExact` | pkg/mqtt/server.go:193-267 | For every string and each stream, a subscription starts the stream exactly if the text without one `/raw` needs it: one of six names, or `blocks/basic/` with `tagged-data/` in it; a state of blocks, or a text that spells a block; one of three ledger prefixes. |
| `Routing.StopRouteExact` | pkg/mqtt/server.go:269-321 | Likewise for what an unsubscription stops, where every text behind `block-metadata/` but the other state stops a block stream. |
| `Routing.NothingNeeded` | pkg/mqtt/server.go:199-266 | The commitment topics and every text of none of these shapes start and stop nothing. |
| `Routing.RawRoutes` | pkg/mqtt/server.go:197 | A topic that does not end in `/raw` and its raw form have the same routes and fetches. |
| `Routing.PollsExact` | pkg/mqtt/server.go:199-265 | A fetch is spawned for a subscriber exactly if the topic, without its raw suffix, spells what the fetch is about. |
| `Routing.PollAnswersSubscriber` | pkg/mqtt/server.go:199-265 | At most one fetch is spawned for a topic. Its answer is published on the lower-case form of the topic, and so reaches the topic as it was subscribed to exactly if that holds no ASCII upper-case letter. |
| `Topics.BlockMetadataSpelling` | pkg/mqtt/topics.go:11-23 | For every string and non-empty block identifier, the parser returns the identifier exactly if the topic is the prefix and its digits in any letter case. |
| `Topics.IncludedSpelling` | pkg/mqtt/topics.go:25-39 | Likewise for the included-block-metadata topic, in spite of two first-occurrence replacements and of a prefix and a suffix that may share a slash. |
| `Topics.TransactionMetadataSpelling` | pkg/mqtt/topics.go:41-54 | Likewise for transaction metadata. |
| `Topics.OutputSpelling` | pkg/mqtt/topics.go:56-68 | Likewise for outputs. |
| `Topics.BlockRoundTrip` | pkg/mqtt/topics.go:78-80 | Parsing the printed topic of any block identifier returns it. |
| `Topics.OutputRoundTrip` | pkg/mqtt/topics.go:82-84 | Likewise for outputs. |
| `Topics.IncludedRoundTrip` | pkg/mqtt/topics.go:86-88 | Likewise for the included-block-metadata topic. |
| `Topics.TransactionMetadataRoundTrip` | pkg/mqtt/topics.go:90-92 | Likewise for transaction metadata. |
| `Topics.AtMostOneIdentifier` | pkg/mqtt/server.go:256-264 | For every string, at most one of the three parsers of the ledger branch finds an identifier. |
| `Hex.DecodeEncode` | pkg/mqtt/topics.go:70-92 | Decoding inverts the hexadecimal encoding that the printers use. |
| `Hex.EncodeDecode` | pkg/mqtt/topics.go:11-68 | Encoding inverts decoding up to letter case. |
| `Hex.Alphabet` | pkg/mqtt/topics.go:11-92 | The sixteen digits, and their values in either letter case. |
| `Hex.EncodedAt` | pkg/mqtt/topics.go:70-92 | Encoded text is `0x` and, for each byte in order, the digits of its upper and of its lower half. |
| `Hex.LowerExact` | pkg/mqtt/topics.go:11-92 | Lower case adds 32 to exactly the letters from A to Z. |
| `Topics.OutputParts` | pkg/mqtt/publish.go:184-186 | The transaction and the index of an output identifier: its first 36 bytes, and the two others with the low byte first. |
| `Topics.FirstOutputExact` | pkg/mqtt/server.go:558-560 | The identifier built for a transaction is its bytes and two zeros, and is the only one with this transaction and index 0. |
| `Outputs.GetTopicOutputsByUnlockConditionAndAddress` | pkg/mqtt/topics.go:114-117 | Two template fills yield the condition and the address between slashes, whatever the address holds. |
| `Outputs.UnlockTopicInjective` | pkg/mqtt/topics.go:114-117 | The topic determines condition and address, whatever the address holds. |
| `Outputs.GetUnlockConditionTopicsForOutput` | pkg/mqtt/topics.go:119-180 | One topic for each condition present, in order, then one "any" topic for each distinct address, in some order of the address map. |
| `Outputs.UnlockTopicsExact` | pkg/mqtt/topics.go:119-180 | For every combination of conditions and any order, no topic occurs twice, their number is the number of conditions plus that of distinct addresses, and a topic is in the list exactly if its condition is present with that address, or it is the "any" topic of an address that some condition has. |
| `Outputs.UnlockFields` | pkg/mqtt/topics.go:133-177 | For each of the six conditions, the topic with its name and an address is in the list exactly if the output has this very condition with this address; the "any" topic exactly if one of the six has the address. |
| `Outputs.ChainKeepsItsTopic` | pkg/mqtt/topics.go:182-230 | The output that starts a chain is published on the same topic as the later outputs of that chain. |
| `Outputs.ChainKindsApart` | pkg/mqtt/topics.go:182-230 | Two outputs that share a chain topic are of the same kind. |
| `Outputs.ChainTopicTexts` | pkg/mqtt/topics.go:182-230 | The text of each kind's topic, from the identifier that the output carries or, where all its bytes are zero, from the one derived from the output, in the encoding of that kind. |
| `Handlers.PublishOutputIfSubscribed` | pkg/mqtt/publish.go:179-218 | The publish calls for an output, each with its topics: with the announcement of its block if it is an unspent first output, or only its own topic when not publishing on all topics. |
| `Handlers.HandleAcceptedTransaction` | pkg/mqtt/server.go:438-458 | The publish calls of the handler, for any visiting order of address maps, are those of the event: consumed outputs, created outputs, the transaction. |
| `Handlers.HandleLedgerUpdate` | pkg/mqtt/server.go:460-483 | Likewise for ledger updates, where each created first output announces its transaction. |
| `Events.RoutingIsComplete` | pkg/mqtt/server.go:193-267 | For every event, each topic that its listener publishes on, plain or raw, is routed by a subscription to that listener's stream. |
| `Coverage.TaggedDataTagServed` | pkg/mqtt/publish.go:129-133 | The topic of a tag is published for exactly the basic blocks whose tagged data carries this non-empty tag. |
| `Coverage.TransactionTagServed` | pkg/mqtt/publish.go:117-127 | Likewise for transactions with tagged data. |
| `Coverage.EventTopicsExact` | pkg/mqtt/server.go:399-483 | For every event and topic, some publish call of the listener is on the topic exactly if the event concerns it: the names and tags that fit a block; the states and identifier of a block; the transaction; and for each consumed or created output its own topic, its chain, each condition with its address, "any" with each such address, and the block of an unspent first output. |
| `Coverage.CallsAreDue` | pkg/mqtt/server.go:399-483 | The number of publish calls on a topic: for blocks and their states at most one, exactly if the topic fits; for ledger events the outputs whose own, chain or unlock topic it is, plus the unspent first outputs that tell of their block there, plus the announcements of a transaction there. |
| `Coverage.ConsumedComeFirst` | pkg/mqtt/server.go:438-483 | The calls for consumed outputs come before all others, and an accepted transaction is announced last. |
| `TopicLists.BlockTopicsDistinct` | pkg/mqtt/publish.go:139-157 | The topics of any block differ from each other and from the raw forms. |
| `TopicLists.OutputTopicsDistinct` | pkg/mqtt/publish.go:179-218 | The topics of any output differ from each other and from the raw forms. |
| `TopicLists.EventCallsDistinct` | pkg/mqtt/server.go:399-483 | So do the topics of each publish call that a listener makes for any event. |
| `Publish.PublishWithPayloadFuncOnTopicsIfSubscribed` | pkg/mqtt/publish.go:17-38 | The loop with its cached payload computes the pass that the following rows are about: world, messages, thunk runs and error. |
| `Publish.AddTopicsPrefix` | pkg/mqtt/publish.go:40-48 | A new array with the given text behind each topic. |
| `Publish.PublishWithPayloadFuncsOnTopicsIfSubscribed` | pkg/mqtt/publish.go:50-66 | A JSON pass, then a raw pass on the raw topics unless the first failed. |
| `Publish.PassIsOnDemand` | pkg/mqtt/publish.go:17-38 | For every thunk, world and sequence of answers: the thunk runs at most once exactly if at most one answer is positive or its first result is not a nil payload; exactly then it runs only on demand and its one payload, if it has no error, goes to the positively answered topics in order. |
| `Publish.NilIsRecomputed` | pkg/mqtt/publish.go:25-32 | For every thunk, the number of its runs: it is repeated until it yields a payload or an error, once for each positively answered topic at most. |
| `Publish.NilRunsTwice` | pkg/mqtt/publish.go:154-156 | The failing input: with nil raw data, two subscribed topics make the thunk run twice. |
| `Publish.PassSends` | pkg/mqtt/publish.go:17-38 | Whatever the thunk does, a pass sends to an initial part of the positively answered topics, to all of them unless it returns an error, and each payload is what a run of this pass yielded behind nil results only. |
| `Publish.MadeExact` | pkg/mqtt/publish.go:25-34 | If the first result is not nil, its payload is the only one that a pass can send. |
| `Publish.PublishTrace` | pkg/mqtt/publish.go:50-66 | Both passes together, when the first run of each thunk decides its pass: a JSON error sends nothing and suppresses the raw pass, a raw error leaves the JSON messages sent, and otherwise both forms go out. |
| `Publish.OneMessagePerTopic` | pkg/mqtt/publish.go:50-66 | On topics that differ from each other and from the raw forms, a publish call sends at most one message on each topic, for any thunks and any answers. |
| `Inclusion.ThunkCaches` | pkg/mqtt/server.go:583-601 | A call of the metadata function returns the cached value without asking the node, or caches the one successful answer, or fails and caches nothing. |
| `Inclusion.MetadataOfBlock` | pkg/mqtt/server.go:554-601 | The metadata function returns and caches the node's answer about the right block: the given one, or the one that the node reports for the transaction's first output. |
| `Inclusion.UnknownOutputStopsCall` | pkg/mqtt/server.go:565-568 | When the fetch of the transaction's first output fails, its error is returned, nothing is sent and no metadata is fetched. |
| `Inclusion.AtMostOneSuccessfulFetch` | pkg/mqtt/server.go:554-604 | Over any answers of node and subscriptions, at most one metadata fetch of a publish call succeeds. |
| `Inclusion.NoFetchWithoutSubscriber` | pkg/mqtt/server.go:554-604 | Without a subscriber of the topic or its raw form, the node is not asked at all. |
| `Inclusion.BothFormsAgree` | pkg/mqtt/server.go:579-604 | The JSON and the raw message encode the same metadata, even when the node's answers change in between. |
| `Delivery.CallDelivers` | pkg/mqtt/publish.go:50-66 | For any thunks, a publish call sends only on subscribed ones among its topics and their raw forms, with a payload that it made for this form; and each of them is served: with the JSON payload if the JSON thunk yields one when the call starts, with the raw payload if the JSON pass has no error and the raw thunk yields one in the world that this pass leaves. |
| `Delivery.HandleDelivers` | pkg/mqtt/server.go:438-483 | A subscriber is served likewise by each call of an event, in the world in which the call starts, whatever the thunks of the other calls do and whether or not they fail. |
| `Delivery.EndToEnd` | pkg/mqtt/server.go:193-483 | Between events of a quiet run, for each live subscription and each event with a publish call on its topic or on the topic that it is the raw form of: the event's stream has a recorded, running, uncancelled listener, and handling the event sends the payload of the subscriber's form on the topic, if this call can make that payload when its turn comes. Nothing is asked of the other calls. |
| `Delivery.ConcernedAreServed` | pkg/mqtt/server.go:193-483 | So each live subscriber of a topic that an event concerns is served by one of its calls. |
| `Delivery.InclusionIsDelivered` | pkg/mqtt/server.go:579-604 | The same for the inclusion publisher with its cached variable: if the node answers the fetch of the call, a plain or raw subscriber of the transaction's topic gets the answer in its form, if that form can be encoded and, for the raw form, a plain subscriber's encoding did not fail before. |
| `Delivery.NewSubscriberGetsInclusion` | pkg/mqtt/server.go:554-577 | A new subscriber, plain or raw, gets the node's metadata of the block that the node reports for the transaction's first output, under the same condition about encodings. |
| `Delivery.OnlySubscribersAreServed` | pkg/mqtt/publish.go:17-66 | For any thunks, every message is on the topic of a live subscription and on a topic, or raw topic, of one of the calls, with a payload that this call got from its thunk for that form. |
| `Delivery.EventCallSendsOncePerTopic` | pkg/mqtt/publish.go:50-66 | One publish call of any listener for any event sends at most one message on each topic, for any thunks and any answers. |
| `Delivery.BlocksAreSentOnce` | pkg/mqtt/server.go:399-436 | Handling a block, an accepted block or a confirmed block sends at most one message on each topic, for any thunks. |
| `Delivery.MessagesAreDue` | pkg/mqtt/server.go:399-483 | Handling any event sends no more messages on a topic than `Coverage.CallsAreDue` counts calls there, or on the topic that it is the raw form of, for any thunks. |
| `Regexes.AnyStar` | pkg/broker/broker_hook.go:157 | A lazy or greedy star of any character matches exactly the stretches without a newline. |
| `Wildcard.ReplacedTextIsUnits` | pkg/broker/broker_hook.go:155-158 | After quoting, the textual replacement hits exactly the stars of the pattern; no backslash of another character merges with it. |
| `Wildcard.CompilerIsCorrect` | pkg/broker/broker_hook.go:155-166 | Every pattern compiles, to exactly literals for its characters, a non-newline star for each `*` and one end marker. |
| `Wildcard.PatternMeaning` | pkg/broker/broker_hook.go:44-66 | A compiled pattern matches a text exactly if some suffix of the text is in the pattern's glob language. |
| `Access.CompileTopicsAsRegexes` | pkg/broker/broker_hook.go:168-179 | With any compiler, the compiled list in order, or an error that names the first pattern that does not compile. |
| `Access.CompilePatterns` | pkg/broker/broker_hook.go:168-179 | With the topic compiler there is no error, and the list holds the trees of the patterns. |
| `Access.MatchTopic` | pkg/broker/broker_hook.go:44-66 | A topic matches a pattern list exactly if for some pattern some suffix of the lower-case topic is in its glob language. |
| `Access.LeadingStarIsRedundant` | pkg/broker/broker_hook.go:155-166 | A leading `*` changes nothing. |
| `Access.CaseIsIgnored` | pkg/broker/broker_hook.go:45 | Topics with the same characters, or the same ASCII letter in the other case, at each position are matched alike. |
| `Access.LoweredAscii` | pkg/broker/broker_hook.go:45 | Lower-casing adds 32 to exactly the letters from A to Z and keeps every other ASCII character. |
| `Access.UpperCasePatternMatchesNothing` | pkg/broker/broker_hook.go:45-51 | A pattern with an ASCII upper-case letter matches no topic. |
| `Access.PrefixPattern` | pkg/broker/broker_hook.go:155-166 | A pattern that ends in its only `*` stands for the texts with its prefix and no newline behind it. |
| `Access.LiteralPattern` | pkg/broker/broker_hook.go:155-166 | A pattern without a star stands for its own text only. |
| `Access.StarPattern` | pkg/broker/broker_hook.go:155-166 | A star between a plain text and the rest of a pattern stands for any stretch without a newline. |
| `Access.SessionsAreVerified` | pkg/broker/broker_hook.go:97-110 | In every run, an open session of a known user gave that user's password when it connected. |
| `Access.ConnectOpens` | pkg/broker/broker_hook.go:97-110 | A connect step opens the session exactly for a stranger or a user with the right password, under the given name, and touches no other session. |
| `Access.CheckReports` | pkg/broker/broker_hook.go:114-129 | In an open session a check is part of a run exactly if it reports what the hook decides for that user, topic and access; the session ends when it is disconnected. |
| `Access.GrantedChecks` | pkg/broker/broker_hook.go:97-129 | In every run, a check is granted exactly if it is a read of a protected topic in a verified session of a known user, or of a topic that is public and not protected. |
| `Access.ProtectingShrinks` | pkg/broker/broker_hook.go:114-129 | One more protected pattern takes from an unknown user exactly the topics that it matches, and gives none. |
| `PublicTopics.DefaultCoversEvents` | components/mqtt/params.go:42-52 | Every topic that a listener publishes on, plain or raw, is matched by the default public patterns. |
| `PublicTopics.DefaultCoversPolls` | components/mqtt/params.go:42-52 | So is every topic that a fetch for a new subscriber, or a new commitment, is published on. |
| `PublicTopics.DefaultExact` | components/mqtt/params.go:42-52 | The default patterns match a topic exactly if some end of its lower-case form has one of the six beginnings and no newline. |

## Left out

- The MQTT broker, its listeners, TLS, websocket and TCP set-up (pkg/broker/broker.go, pkg/broker/tls.go): library plumbing.
- The subscription manager and `basicauth`: not part of this model, which uses an event trace, arbitrary `HasSubscribers` answers and abstract user tables instead.
- `OnSubscribed` and `OnUnsubscribed` (pkg/broker/broker_hook.go:142-153): loops that hand each filter to the subscription manager.
- iota.go's JSON, binary and Bech32 encodings and its hashing: encoders are arbitrary functions, addresses arbitrary texts.
- Commitment publishing through a function called twice (pkg/mqtt/publish.go:96-111): the two calls may see different commitments, and no claim is made about them.
- Fetch timeouts, logging, `SelfShutdown`, API route registration and metrics.
- Events.StreamOf: each stream's goroutine is taken to run the listen function of its name, as every start call pairs them (pkg/mqtt/server.go:216-254).
- Individual send failures: `sendMessageOnTopic` logs and goes on, so a message in the model is a send that was attempted.
- Exact counts in runs with listener failures: the record is dropped while subscribers remain, so only the inequality of `Protocol.NoOrphans` holds there.
- Server.Server: the handlers of the class run without interruption; interleavings of their critical sections are the runs of the transition system, which the class does not execute. The goroutine itself is the abstract table's record of it.
- Inclusion.MetadataFunc: the captured variable `blockMetadata` is a component of a world that is passed along, not a shared variable, because a thunk must be a function.
- Handlers.PublishOutputIfSubscribed: lists the publish calls and their topics; that its two payload functions share one cached response (pkg/mqtt/publish.go:198-209) is not modelled, since the response is the same either way.
- The fetch in `fetchAndPublishOutput` (pkg/mqtt/server.go:528-539); what it publishes afterwards is `Handlers.PublishOutputIfSubscribed` without all topics.
- Regular-expression syntax that topic patterns cannot produce, Go's limits on the size of expressions, and invalid UTF-8, which Go would refuse to compile.
- Delivery.EndToEnd: speaks of one event that is handled while the subscriptions stay as they are; what changing subscriptions can do within a publish call is covered by the trace theorems of `Publish`.
