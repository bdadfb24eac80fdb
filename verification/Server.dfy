/** The `grpcSubscriptions` map of the server, updated in place, and the event handlers that use it (pkg/mqtt/server.go). */
module Server {
  import opened GoStrings
  import opened Topics
  import opened Routing
  import opened Listeners

  /** A context with its cancel function, made for the goroutine `owner`. */
  class CancelContext {
    ghost const owner: nat
    var cancelled: bool

    constructor (ghost owner: nat)
      ensures !cancelled && this.owner == owner
    {
      this.owner := owner;
      cancelled := false;
    }
  }

  class GrpcSubscription {
    ghost const stream: Stream
    const context: CancelContext
    const identifier: int
    var count: int

    constructor (ghost stream: Stream, context: CancelContext, identifier: int)
      ensures this.stream == stream && this.context == context && this.identifier == identifier && count == 1
    {
      this.stream := stream;
      this.context := context;
      this.identifier := identifier;
      count := 1;
    }
  }

  /** The calls of one handler, one after the other, with the identifiers they draw. */
  ghost function AddAll(t: Table, calls: seq<Stream>, identifiers: seq<int>, owner: nat): Table
    requires |calls| <= |identifiers|
    decreases calls
  {
    if calls == [] then t
    else AddAll(Add(t, calls[0], identifiers[0], owner), calls[1..], identifiers[1..], owner + 1)
  }

  ghost function StopAll(t: Table, calls: seq<Stream>): Table
    decreases calls
  {
    if calls == [] then t else StopAll(Stop(t, calls[0]), calls[1..])
  }

  lemma AddAllUnfolds(t: Table, a: Stream, b: Stream, identifiers: seq<int>, owner: nat)
    requires |identifiers| >= 2
    ensures AddAll(t, [], identifiers, owner) == t
    ensures AddAll(t, [a], identifiers, owner) == Add(t, a, identifiers[0], owner)
    ensures AddAll(t, [a, b], identifiers, owner) == Add(Add(t, a, identifiers[0], owner), b, identifiers[1], owner + 1)
  {
    var one := AddAll(t, [a], identifiers, owner);
    assert [a][1..] == [];
    assert one == AddAll(Add(t, a, identifiers[0], owner), [], identifiers[1..], owner + 1);
    var rest := AddAll(Add(t, a, identifiers[0], owner), [b], identifiers[1..], owner + 1);
    assert [a, b][1..] == [b] && [b][1..] == [];
    assert rest == AddAll(Add(Add(t, a, identifiers[0], owner), b, identifiers[1], owner + 1), [], identifiers[1..][1..], owner + 2);
  }

  lemma StopAllUnfolds(t: Table, a: Stream, b: Stream)
    ensures StopAll(t, []) == t && StopAll(t, [a]) == Stop(t, a) && StopAll(t, [a, b]) == Stop(Stop(t, a), b)
  {
    assert [a, b][1..] == [b] && [b][1..] == [] && [a][1..] == [];
    assert StopAll(t, [a]) == StopAll(Stop(t, a), []);
    assert StopAll(Stop(t, a), [b]) == StopAll(Stop(Stop(t, a), b), []);
  }

  /** Stopping is counting down and, at zero, cancelling and deleting. */
  lemma StopByParts(t: Table, s: Stream)
    requires s in t.entries
    ensures var e := t.entries[s].(count := t.entries[s].count - 1);
            var counted := t.(entries := t.entries[s := e]);
            var cancelled := counted.(listeners := Cancel(counted.listeners, e.owner));
            Stop(t, s) == if e.count == 0 then cancelled.(entries := cancelled.entries - {s}) else counted
  {}

  class Server {
    var grpcSubscriptions: map<Stream, GrpcSubscription>

    // The abstract table that the map stands for, the contexts handed to goroutines, and the number of the next goroutine.
    ghost var table: Table
    ghost var contexts: map<nat, CancelContext>
    ghost var next: nat
    ghost var Repr: set<object>

    ghost predicate Valid()
      reads this, Repr
      ensures Valid() ==> this in Repr
    {
      && this in Repr
      && (forall s :: s in grpcSubscriptions <==> s in table.entries)
      && (forall l :: l in contexts <==> l in table.listeners)
      && (forall l :: l in contexts ==> ContextMatches(l))
      && (forall s :: s in grpcSubscriptions ==> SubscriptionMatches(s))
    }

    ghost predicate ContextMatches(l: nat)
      requires l in contexts && l in table.listeners
      reads this, Repr
    {
      var c := contexts[l];
      c in Repr && c.owner == l < next && c.cancelled == table.listeners[l].cancelled
    }

    ghost predicate SubscriptionMatches(s: Stream)
      requires s in grpcSubscriptions && s in table.entries
      reads this, Repr
    {
      var sub := grpcSubscriptions[s];
      && sub in Repr && sub.stream == s
      && table.entries[s] == Entry(sub.count, sub.identifier, sub.context.owner)
      && sub.context.owner in contexts && contexts[sub.context.owner] == sub.context
    }

    constructor ()
      ensures Valid() && fresh(Repr) && table == Table(map[], map[]) && grpcSubscriptions == map[] && contexts == map[] && next == 0
    {
      grpcSubscriptions := map[];
      table := Table(map[], map[]);
      contexts := map[];
      next := 0;
      Repr := {this};
    }

    // The single updates that the critical sections are made of.

    /** `sub.count = count` */
    method SetCount(grpcCall: Stream, count: int)
      requires Valid() && grpcCall in grpcSubscriptions
      modifies Repr
      ensures Valid() && Repr == old(Repr)
      ensures table == old(table).(entries := old(table.entries)[grpcCall := old(table.entries[grpcCall]).(count := count)])
      ensures contexts == old(contexts) && next == old(next) && grpcSubscriptions == old(grpcSubscriptions)
    {
      assert SubscriptionMatches(grpcCall);
      grpcSubscriptions[grpcCall].count := count;
      table := table.(entries := table.entries[grpcCall := table.entries[grpcCall].(count := count)]);
    }

    /** `context.WithCancel(ctx)` for a goroutine about to be spawned */
    method WithCancel(ghost grpcCall: Stream, ghost identifier: int) returns (context: CancelContext)
      requires Valid()
      modifies this
      ensures Valid() && fresh(context) && Repr == old(Repr) + {context}
      ensures table == old(table).(listeners := old(table.listeners)[old(next) := Listener(grpcCall, identifier, Spawned, false)])
      ensures next == old(next) + 1 && context.owner == old(next) && contexts == old(contexts)[old(next) := context]
      ensures grpcSubscriptions == old(grpcSubscriptions)
    {
      context := new CancelContext(next);
      assert forall s :: s in grpcSubscriptions ==> SubscriptionMatches(s);
      table := table.(listeners := table.listeners[next := Listener(grpcCall, identifier, Spawned, false)]);
      contexts := contexts[next := context];
      next := next + 1;
      Repr := Repr + {context};
    }

    /** `s.grpcSubscriptions[grpcCall] = sub` */
    method Record(grpcCall: Stream, sub: GrpcSubscription)
      requires Valid() && grpcCall !in grpcSubscriptions && sub !in Repr && sub.stream == grpcCall
      requires sub.context.owner in contexts && contexts[sub.context.owner] == sub.context
      modifies this
      ensures Valid() && Repr == old(Repr) + {sub}
      ensures table == old(table).(entries := old(table.entries)[grpcCall := Entry(sub.count, sub.identifier, sub.context.owner)])
      ensures contexts == old(contexts) && next == old(next) && grpcSubscriptions == old(grpcSubscriptions)[grpcCall := sub]
    {
      grpcSubscriptions := grpcSubscriptions[grpcCall := sub];
      table := table.(entries := table.entries[grpcCall := Entry(sub.count, sub.identifier, sub.context.owner)]);
      Repr := Repr + {sub};
    }

    /** `sub.cancelFunc()` */
    method CallCancel(context: CancelContext)
      requires Valid() && context.owner in contexts && contexts[context.owner] == context
      modifies Repr
      ensures Valid() && Repr == old(Repr)
      ensures table == old(table).(listeners := Cancel(old(table.listeners), context.owner))
      ensures contexts == old(contexts) && next == old(next) && grpcSubscriptions == old(grpcSubscriptions)
    {
      assert ContextMatches(context.owner);
      context.cancelled := true;
      table := table.(listeners := Cancel(table.listeners, context.owner));
    }

    /** `delete(s.grpcSubscriptions, grpcCall)` */
    method Delete(grpcCall: Stream)
      requires Valid()
      modifies this
      ensures Valid() && Repr == old(Repr)
      ensures table == old(table).(entries := old(table.entries) - {grpcCall})
      ensures contexts == old(contexts) && next == old(next)
    {
      grpcSubscriptions := grpcSubscriptions - {grpcCall};
      table := table.(entries := table.entries - {grpcCall});
    }

    // The critical sections.

    method AddGRPCSubscription(grpcCall: Stream, random: int) returns (sub: GrpcSubscription?)
      requires Valid()
      modifies Repr
      ensures Valid() && fresh(Repr - old(Repr))
      ensures table == Add(old(table), grpcCall, random, old(next)) && next == old(next) + 1
      ensures sub == null <==> grpcCall in old(grpcSubscriptions)
      ensures sub != null ==> fresh(sub) && sub.context.owner == old(next) && sub.identifier == random
      ensures sub != null ==> grpcCall in grpcSubscriptions && grpcSubscriptions[grpcCall] == sub
    {
      if grpcCall in grpcSubscriptions {
        assert SubscriptionMatches(grpcCall);
        SetCount(grpcCall, grpcSubscriptions[grpcCall].count + 1);
        next := next + 1;
        sub := null;
      } else {
        sub := NewSubscription(grpcCall, random);
      }
    }

    /** The branch for a stream that is not listened to yet. */
    method NewSubscription(grpcCall: Stream, random: int) returns (sub: GrpcSubscription)
      requires Valid() && grpcCall !in grpcSubscriptions
      modifies this
      ensures Valid() && fresh(Repr - old(Repr))
      ensures table == Add(old(table), grpcCall, random, old(next)) && next == old(next) + 1
      ensures fresh(sub) && sub.context.owner == old(next) && sub.identifier == random
      ensures grpcSubscriptions == old(grpcSubscriptions)[grpcCall := sub]
    {
      var context := WithCancel(grpcCall, random);
      sub := new GrpcSubscription(grpcCall, context, random);
      Record(grpcCall, sub);
    }

    method RemoveGRPCSubscription(grpcCall: Stream, subscriptionIdentifier: int)
      requires Valid()
      modifies this
      ensures Valid() && Repr == old(Repr)
      ensures table == Remove(old(table), grpcCall, subscriptionIdentifier)
      ensures contexts == old(contexts) && next == old(next)
    {
      assert grpcCall in grpcSubscriptions ==> SubscriptionMatches(grpcCall);
      if grpcCall in grpcSubscriptions && grpcSubscriptions[grpcCall].identifier == subscriptionIdentifier {
        // a record with another identifier belongs to a younger goroutine
        Delete(grpcCall);
      }
    }

    method StopListenIfNeeded(grpcCall: Stream)
      requires Valid()
      modifies Repr
      ensures Valid() && Repr == old(Repr)
      ensures table == Stop(old(table), grpcCall)
      ensures contexts == old(contexts) && next == old(next)
    {
      if grpcCall in grpcSubscriptions {
        var sub := grpcSubscriptions[grpcCall];
        assert SubscriptionMatches(grpcCall);
        StopByParts(table, grpcCall);
        SetCount(grpcCall, sub.count - 1);
        assert SubscriptionMatches(grpcCall);
        if sub.count == 0 {
          CallCancel(sub.context);
          Delete(grpcCall);
        }
      }
    }

    /** What the goroutine of `sub` does when its listen function has returned. */
    method FinishListening(grpcCall: Stream, sub: GrpcSubscription)
      requires Valid() && sub.context.owner in contexts
      modifies Repr
      ensures Valid()
      ensures table == Remove(Advance(old(table), sub.context.owner, Removed), grpcCall, sub.identifier)
      ensures contexts == old(contexts) && next == old(next) && Repr == old(Repr)
    {
      table := Advance(table, sub.context.owner, Removed);
      RemoveGRPCSubscription(grpcCall, sub.identifier);
    }

    /** The result, if any, is what a new goroutine runs with: it listens with the context and then calls `FinishListening`. */
    method StartListenIfNeeded(grpcCall: Stream, random: int) returns (goroutine: GrpcSubscription?)
      requires Valid()
      modifies Repr
      ensures Valid()
      ensures goroutine == null <==> grpcCall in old(grpcSubscriptions)
      ensures goroutine != null ==>
                fresh(goroutine) && goroutine.identifier == random && goroutine.context.owner == old(next) && goroutine.context.owner in contexts
      ensures goroutine != null ==> table.listeners[old(next)] == Listener(grpcCall, random, Spawned, false)
      ensures table == Add(old(table), grpcCall, random, old(next)) && next == old(next) + 1
      ensures fresh(Repr - old(Repr))
    {
      goroutine := AddGRPCSubscription(grpcCall, random);
    }

    /** The handler of a subscribe event when nothing runs in between; `polls` are the fetches it spawns. */
    method OnSubscribeTopic(fullTopic: string, random: seq<int>) returns (polls: seq<Poll>)
      requires Valid() && |random| >= 2
      modifies Repr
      ensures Valid() && fresh(Repr - old(Repr))
      ensures |StartRoute(fullTopic)| <= 2 && table == AddAll(old(table), StartRoute(fullTopic), random, old(next))
      ensures polls == Polls(fullTopic)
    {
      var topic := TrimSuffix(fullTopic, RAW);
      AddAllUnfolds(table, Blocks, Blocks, random, next);
      AddAllUnfolds(table, AcceptedBlocks, AcceptedBlocks, random, next);
      AddAllUnfolds(table, ConfirmedBlocks, ConfirmedBlocks, random, next);
      polls := [];
      if topic == COMMITMENTS_LATEST {
        polls := [PollLatestCommitment];
      } else if topic == COMMITMENTS_FINALIZED {
        polls := [PollFinalizedCommitment];
      } else if IsBlocksTopic(topic) {
        var _ := StartListenIfNeeded(Blocks, random[0]);
      } else if topic == METADATA_ACCEPTED {
        var _ := StartListenIfNeeded(AcceptedBlocks, random[0]);
      } else if topic == METADATA_CONFIRMED {
        var _ := StartListenIfNeeded(ConfirmedBlocks, random[0]);
      } else {
        polls := SubscribeByShape(topic, random);
      }
    }

    method StartBoth(a: Stream, b: Stream, random: seq<int>)
      requires Valid() && |random| >= 2
      modifies Repr
      ensures Valid() && fresh(Repr - old(Repr))
      ensures table == AddAll(old(table), [a, b], random, old(next))
    {
      ghost var before, owner := table, next;
      var _ := StartListenIfNeeded(a, random[0]);
      assert table == Add(before, a, random[0], owner);
      var _ := StartListenIfNeeded(b, random[1]);
      AddAllUnfolds(before, a, b, random, owner);
    }

    /** The default branch of `onSubscribeTopic`. */
    method SubscribeByShape(topic: string, random: seq<int>) returns (polls: seq<Poll>)
      requires Valid() && |random| >= 2
      modifies Repr
      ensures Valid() && fresh(Repr - old(Repr))
      ensures |StartByShape(topic)| <= 2 && table == AddAll(old(table), StartByShape(topic), random, old(next))
      ensures polls == PollsByShape(topic)
    {
      ghost var before, owner := table, next;
      polls := [];
      if IsTaggedBlocksTopic(topic) {
        var _ := StartListenIfNeeded(Blocks, random[0]);
        AddAllUnfolds(before, Blocks, Blocks, random, owner);
      } else if HasPrefix(topic, "block-metadata/") {
        var blockID := BlockIDFromBlockMetadataTopic(topic);
        if blockID != Zero(36) {
          StartBoth(AcceptedBlocks, ConfirmedBlocks, random);
          polls := [PollBlockMetadata(blockID)];
        }
      } else if IsLedgerTopic(topic) {
        StartBoth(AcceptedTransactions, LedgerUpdates, random);
        polls := LedgerPolls(topic);
      }
    }

    /** The handler of an unsubscribe event when nothing runs in between. */
    method OnUnsubscribeTopic(fullTopic: string)
      requires Valid()
      modifies Repr
      ensures Valid() && Repr == old(Repr)
      ensures table == StopAll(old(table), StopRoute(fullTopic))
    {
      var topic := TrimSuffix(fullTopic, RAW);
      StopAllUnfolds(table, Blocks, Blocks);
      StopAllUnfolds(table, AcceptedBlocks, AcceptedBlocks);
      StopAllUnfolds(table, ConfirmedBlocks, ConfirmedBlocks);
      if topic == COMMITMENTS_LATEST || topic == COMMITMENTS_FINALIZED {
        // no stream is involved
      } else if IsBlocksTopic(topic) {
        StopListenIfNeeded(Blocks);
      } else if topic == METADATA_ACCEPTED {
        StopListenIfNeeded(AcceptedBlocks);
      } else if topic == METADATA_CONFIRMED {
        StopListenIfNeeded(ConfirmedBlocks);
      } else {
        UnsubscribeByShape(topic);
      }
    }

    /** The default branch of `onUnsubscribeTopic`. */
    method UnsubscribeByShape(topic: string)
      requires Valid()
      modifies Repr
      ensures Valid() && Repr == old(Repr)
      ensures table == StopAll(old(table), StopByShape(topic))
    {
      StopAllUnfolds(table, Blocks, Blocks);
      StopAllUnfolds(table, AcceptedBlocks, ConfirmedBlocks);
      StopAllUnfolds(table, AcceptedTransactions, LedgerUpdates);
      if IsTaggedBlocksTopic(topic) {
        StopListenIfNeeded(Blocks);
      } else if HasPrefix(topic, "block-metadata/") {
        StopListenIfNeeded(AcceptedBlocks);
        StopListenIfNeeded(ConfirmedBlocks);
      } else if IsLedgerTopic(topic) {
        StopListenIfNeeded(AcceptedTransactions);
        StopListenIfNeeded(LedgerUpdates);
      }
    }
  }
}
