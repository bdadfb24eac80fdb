/** The handlers of ledger events as the server runs them: loops over outputs, each with its publish calls (pkg/mqtt/server.go, pkg/mqtt/publish.go). */
module Handlers {
  import opened Topics
  import opened Outputs
  import opened Events

  /** The same output, with the order in which its addresses were visited. */
  ghost predicate Visits(o: Output, visited: Output) {
    visited == o.(order := visited.order) && ValidOutput(visited)
  }

  ghost predicate VisitsAll(outputs: seq<Output>, visited: seq<Output>) {
    |visited| == |outputs| && forall i :: 0 <= i < |outputs| ==> Visits(outputs[i], visited[i])
  }

  lemma VisitedAreValid(outputs: seq<Output>, visited: seq<Output>)
    requires VisitsAll(outputs, visited)
    ensures ValidOutputs(visited)
  {}

  lemma VisitsOneMore(outputs: seq<Output>, i: nat, visited: seq<Output>, v: Output)
    requires i < |outputs| && VisitsAll(outputs[..i], visited) && Visits(outputs[i], v)
    ensures VisitsAll(outputs[..i + 1], visited + [v])
  {}

  lemma Regroup<T>(a: seq<T>, b: seq<T>, c: seq<T>)
    ensures a + (b + c) == a + b + c
  {}

  lemma {:induction false} OutputsCallsSnoc(codec: Codec, outputs: seq<Output>, o: Output)
    ensures OutputsCalls(codec, outputs + [o]) == OutputsCalls(codec, outputs) + OutputCalls(codec, o)
  {
    if outputs == [] {
      assert ([] + [o])[1..] == [];
    } else {
      var first, rest := outputs[0], outputs[1..];
      assert (outputs + [o])[1..] == rest + [o];
      OutputsCallsSnoc(codec, rest, o);
      Regroup(OutputCalls(codec, first), OutputsCalls(codec, rest), OutputCalls(codec, o));
    }
  }

  lemma {:induction false} CreatedCallsSnoc(codec: Codec, outputs: seq<Output>, o: Output)
    ensures CreatedCalls(codec, outputs + [o]) == CreatedCalls(codec, outputs) + CreatedOutputCalls(codec, o)
  {
    if outputs == [] {
      assert ([] + [o])[1..] == [];
    } else {
      var first, rest := outputs[0], outputs[1..];
      assert (outputs + [o])[1..] == rest + [o];
      CreatedCallsSnoc(codec, rest, o);
      Regroup(CreatedOutputCalls(codec, first), CreatedCalls(codec, rest), CreatedOutputCalls(codec, o));
    }
  }

  /** The topics of an output, collected in the order in which they are appended. */
  method OutputTopicsOnAll(codec: Codec, o: Output) returns (topics: seq<string>, visited: Output)
    ensures Visits(o, visited) && topics == OutputTopics(codec, visited, true)
  {
    topics := [GetTopicOutput(o.id)];
    var chainTopics := GetChainTopicsForOutput(codec, o.id, o.chain);
    topics := topics + chainTopics;
    var unlockTopics, order := GetUnlockConditionTopicsForOutput(o.conditions);
    visited := o.(order := order);
    topics := topics + unlockTopics;
    Regroup([GetTopicOutput(o.id)], chainTopics, unlockTopics);
  }

  /** The publish calls for an output, in order. */
  method PublishOutputIfSubscribed(codec: Codec, o: Output, publishOnAllTopics: bool) returns (calls: seq<seq<string>>, visited: Output)
    ensures publishOnAllTopics ==> Visits(o, visited) && calls == OutputCalls(codec, visited)
    ensures !publishOnAllTopics ==> visited == o && calls == [[GetTopicOutput(o.id)]]
  {
    if publishOnAllTopics {
      calls := [];
      if !o.spent && IndexOf(o.id) == 0 {
        // a first output also tells of its transaction's block
        calls := [[GetTopicTransactionsIncludedBlockMetadata(TransactionOf(o.id))]];
      }
      var topics;
      topics, visited := OutputTopicsOnAll(codec, o);
      calls := calls + [topics];
    } else {
      calls, visited := [[GetTopicOutput(o.id)]], o;
    }
  }

  /** The loop over the consumed outputs of an event, or the created ones of an accepted transaction. */
  method PublishOutputs(codec: Codec, outputs: seq<Output>) returns (calls: seq<seq<string>>, visited: seq<Output>)
    ensures VisitsAll(outputs, visited) && calls == OutputsCalls(codec, visited)
  {
    calls, visited := [], [];
    for i := 0 to |outputs|
      invariant VisitsAll(outputs[..i], visited) && calls == OutputsCalls(codec, visited)
    {
      var more, v := PublishOutputIfSubscribed(codec, outputs[i], true);
      VisitsOneMore(outputs, i, visited, v);
      OutputsCallsSnoc(codec, visited, v);
      calls, visited := calls + more, visited + [v];
    }
    assert outputs[..|outputs|] == outputs;
  }

  method PublishCreatedOutputs(codec: Codec, outputs: seq<Output>) returns (calls: seq<seq<string>>, visited: seq<Output>)
    ensures VisitsAll(outputs, visited) && calls == CreatedCalls(codec, visited)
  {
    calls, visited := [], [];
    for i := 0 to |outputs|
      invariant VisitsAll(outputs[..i], visited) && calls == CreatedCalls(codec, visited)
    {
      var more, v := PublishOutputIfSubscribed(codec, outputs[i], true);
      if IndexOf(outputs[i].id) == 0 {
        // likewise its transaction
        more := more + [[GetTopicTransactionMetadata(TransactionOf(outputs[i].id))]];
      }
      assert more == CreatedOutputCalls(codec, v);
      VisitsOneMore(outputs, i, visited, v);
      CreatedCallsSnoc(codec, visited, v);
      calls, visited := calls + more, visited + [v];
    }
    assert outputs[..|outputs|] == outputs;
  }

  /** The handler that `listenToAcceptedTransactions` registers. */
  method HandleAcceptedTransaction(codec: Codec, transaction: TransactionID, consumed: seq<Output>, created: seq<Output>)
    returns (calls: seq<seq<string>>, e: Event)
    ensures e.AcceptedTransactionEvent? && e.transaction == transaction && VisitsAll(consumed, e.consumed) && VisitsAll(created, e.created)
    ensures Valid(e) && calls == EventCalls(codec, e)
  {
    var spent, visitedConsumed := PublishOutputs(codec, consumed);
    var unspent, visitedCreated := PublishOutputs(codec, created);
    VisitedAreValid(consumed, visitedConsumed);
    VisitedAreValid(created, visitedCreated);
    e := AcceptedTransactionEvent(transaction, visitedConsumed, visitedCreated);
    calls := spent + unspent + [[GetTopicTransactionMetadata(transaction)]];
  }

  /** The handler that `listenToLedgerUpdates` registers. */
  method HandleLedgerUpdate(codec: Codec, consumed: seq<Output>, created: seq<Output>) returns (calls: seq<seq<string>>, e: Event)
    ensures e.LedgerUpdateEvent? && VisitsAll(consumed, e.consumed) && VisitsAll(created, e.created)
    ensures Valid(e) && calls == EventCalls(codec, e)
  {
    var spent, visitedConsumed := PublishOutputs(codec, consumed);
    var unspent, visitedCreated := PublishCreatedOutputs(codec, created);
    VisitedAreValid(consumed, visitedConsumed);
    VisitedAreValid(created, visitedCreated);
    e := LedgerUpdateEvent(visitedConsumed, visitedCreated);
    calls := spent + unspent;
  }
}
