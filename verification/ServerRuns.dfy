/** The handlers of the server, run without interruption, are runs of the listener protocol; and one handler undoes the other. */
module ServerRuns {
  import opened Wrappers
  import opened Routing
  import opened Listeners
  import opened Protocol
  import opened Server

  /** The numbers and identifiers that a handler's start calls may use. */
  ghost predicate Drawn(t: Table, calls: seq<Stream>, identifiers: seq<int>, owner: nat) {
    && |calls| <= |identifiers|
    && (forall l :: l in t.listeners ==> l < owner)
    && (forall k :: 0 <= k < |calls| ==> FreshIdentifier(t, calls[k], identifiers[k]))
  }

  ghost predicate DistinctCalls(calls: seq<Stream>) {
    forall i, j :: 0 <= i < j < |calls| ==> calls[i] != calls[j]
  }

  lemma DrawnAfterAdd(t: Table, calls: seq<Stream>, identifiers: seq<int>, owner: nat)
    requires calls != [] && Drawn(t, calls, identifiers, owner) && DistinctCalls(calls)
    ensures Drawn(Add(t, calls[0], identifiers[0], owner), calls[1..], identifiers[1..], owner + 1) && DistinctCalls(calls[1..])
  {}

  /** The state with some stage of a subscription and some table. */
  function Reached(st: State, id: nat, stage: Stage, table: Table): State
    requires id in st.subs
  {
    SetStage(st, id, stage).(table := table)
  }

  lemma ReachedTwice(st: State, id: nat, a: Stage, t: Table, b: Stage, u: Table)
    requires id in st.subs
    ensures Reached(Reached(st, id, a, t), id, b, u) == Reached(st, id, b, u)
  {}

  lemma ReachedAlready(st: State, id: nat)
    requires id in st.subs
    ensures Reached(st, id, st.subs[id].stage, st.table) == st
  {}

  /** The start calls from number `k` on, one after the other. */
  lemma {:induction false} StartCallsRun(steps: seq<Step>, quiet: bool, st: State, id: nat, k: nat, route: seq<Stream>, identifiers: seq<int>, owner: nat)
    returns (after: seq<Step>)
    requires Exec(steps, quiet) == Some(st) && id in st.subs && route == StartRoute(st.subs[id].topic)
    requires k <= |route| && st.subs[id].stage == Subscribing(k)
    requires Drawn(st.table, route[k..], identifiers, owner) && DistinctCalls(route[k..])
    ensures Exec(after, quiet) == Some(Reached(st, id, Subscribing(|route|), AddAll(st.table, route[k..], identifiers, owner)))
    decreases |route| - k
  {
    if k == |route| {
      after := steps;
      ReachedAlready(st, id);
    } else {
      var step := StartCall(id, identifiers[0], owner);
      var t := Add(st.table, route[k], identifiers[0], owner);
      assert FreshIdentifier(st.table, route[k..][0], identifiers[0]);
      ExecOne(steps, step, quiet);
      DrawnAfterAdd(st.table, route[k..], identifiers, owner);
      assert route[k..][1..] == route[k + 1..];
      after := StartCallsRun(steps + [step], quiet, Reached(st, id, Subscribing(k + 1), t), id, k + 1, route, identifiers[1..], owner + 1);
      ReachedTwice(st, id, Subscribing(k + 1), t, Subscribing(|route|), AddAll(t, route[k + 1..], identifiers[1..], owner + 1));
    }
  }

  /** What `Server.OnSubscribeTopic` does to the table is what a run of the protocol does that subscribes without interruption,
      and a quiet run stays quiet. */
  lemma SubscribeHandlerIsRun(steps: seq<Step>, quiet: bool, id: nat, client: string, topic: string, identifiers: seq<int>, owner: nat)
    requires Exec(steps, quiet).Some? && id !in Exec(steps, quiet).value.subs
    requires Drawn(Exec(steps, quiet).value.table, StartRoute(topic), identifiers, owner)
    ensures exists after ::
      Exec(after, quiet) == Some(State(AddAll(Exec(steps, quiet).value.table, StartRoute(topic), identifiers, owner),
                 Exec(steps, quiet).value.subs[id := Subscription(client, topic, Live)],
                 Exec(steps, quiet).value.parentCancelled))
  {
    var st := Exec(steps, quiet).value;
    var begin := BeginSubscribe(id, client, topic);
    ExecOne(steps, begin, quiet);
    RoutesShape(topic);
    assert StartRoute(topic)[0..] == StartRoute(topic);
    var called := StartCallsRun(steps + [begin], quiet, Apply(st, begin), id, 0, StartRoute(topic), identifiers, owner);
    ExecOne(called, EndSubscribe(id), quiet);
    assert Exec(called + [EndSubscribe(id)], quiet).value.subs == st.subs[id := Subscription(client, topic, Live)];
  }

  lemma {:induction false} StopCallsRun(steps: seq<Step>, quiet: bool, st: State, id: nat, k: nat, route: seq<Stream>) returns (after: seq<Step>)
    requires Exec(steps, quiet) == Some(st) && id in st.subs && route == StopRoute(st.subs[id].topic)
    requires k <= |route| && st.subs[id].stage == Unsubscribing(k)
    ensures Exec(after, quiet) == Some(Reached(st, id, Unsubscribing(|route|), StopAll(st.table, route[k..])))
    decreases |route| - k
  {
    if k == |route| {
      after := steps;
      ReachedAlready(st, id);
    } else {
      var t := Stop(st.table, route[k]);
      ExecOne(steps, StopCall(id), quiet);
      assert route[k..][1..] == route[k + 1..];
      after := StopCallsRun(steps + [StopCall(id)], quiet, Reached(st, id, Unsubscribing(k + 1), t), id, k + 1, route);
      ReachedTwice(st, id, Unsubscribing(k + 1), t, Unsubscribing(|route|), StopAll(t, route[k + 1..]));
    }
  }

  /** Likewise for `Server.OnUnsubscribeTopic`, unless the topic is unparsable. */
  lemma UnsubscribeHandlerIsRun(steps: seq<Step>, quiet: bool, id: nat)
    requires Exec(steps, quiet).Some? && id in Exec(steps, quiet).value.subs && Exec(steps, quiet).value.subs[id].stage.Live?
    requires quiet ==> !Unparsable(Exec(steps, quiet).value.subs[id].topic)
    ensures exists after ::
      Exec(after, quiet) == Some(State(StopAll(Exec(steps, quiet).value.table, StopRoute(Exec(steps, quiet).value.subs[id].topic)),
                 Exec(steps, quiet).value.subs - {id},
                 Exec(steps, quiet).value.parentCancelled))
  {
    var st := Exec(steps, quiet).value;
    ExecOne(steps, BeginUnsubscribe(id), quiet);
    var route := StopRoute(st.subs[id].topic);
    assert route[0..] == route;
    var called := StopCallsRun(steps + [BeginUnsubscribe(id)], quiet, Apply(st, BeginUnsubscribe(id)), id, 0, route);
    ExecOne(called, EndUnsubscribe(id), quiet);
    assert Exec(called + [EndUnsubscribe(id)], quiet).value.subs == st.subs - {id};
  }

  // One handler undoes the other.

  lemma {:induction false} AddAllEntry(t: Table, calls: seq<Stream>, identifiers: seq<int>, owner: nat, q: Stream)
    requires |calls| <= |identifiers| && DistinctCalls(calls)
    ensures q !in calls ==> EntryOf(AddAll(t, calls, identifiers, owner), q) == EntryOf(t, q)
    ensures q in calls ==>
      match EntryOf(t, q)
      case Some(e) => EntryOf(AddAll(t, calls, identifiers, owner), q) == Some(e.(count := e.count + 1))
      case None => EntryOf(AddAll(t, calls, identifiers, owner), q).Some? && EntryOf(AddAll(t, calls, identifiers, owner), q).value.count == 1
    decreases |calls|
  {
    if calls != [] {
      assert calls == [calls[0]] + calls[1..];
      AddAllEntry(Add(t, calls[0], identifiers[0], owner), calls[1..], identifiers[1..], owner + 1, q);
    }
  }

  function EntryOf(t: Table, s: Stream): Option<Entry> {
    if s in t.entries then Some(t.entries[s]) else None
  }

  lemma {:induction false} StopAllEntry(t: Table, calls: seq<Stream>, q: Stream)
    requires DistinctCalls(calls)
    ensures EntryOf(StopAll(t, calls), q) ==
      if q !in calls || q !in t.entries then EntryOf(t, q)
      else if t.entries[q].count == 1 then None
      else Some(t.entries[q].(count := t.entries[q].count - 1))
    decreases |calls|
  {
    if calls != [] {
      assert calls == [calls[0]] + calls[1..];
      StopAllEntry(Stop(t, calls[0]), calls[1..], q);
    }
  }

  lemma EntryRestored(t: Table, calls: seq<Stream>, identifiers: seq<int>, owner: nat, q: Stream)
    requires |calls| <= |identifiers| && DistinctCalls(calls) && (q in t.entries ==> t.entries[q].count >= 1)
    ensures EntryOf(StopAll(AddAll(t, calls, identifiers, owner), calls), q) == EntryOf(t, q)
  {
    AddAllEntry(t, calls, identifiers, owner, q);
    StopAllEntry(AddAll(t, calls, identifiers, owner), calls, q);
  }

  lemma SameEntries(t: Table, u: Table)
    requires forall q :: EntryOf(t, q) == EntryOf(u, q)
    ensures t.entries == u.entries
  {
    forall q
      ensures (q in t.entries <==> q in u.entries) && (q in t.entries ==> t.entries[q] == u.entries[q])
    {
      assert EntryOf(t, q) == EntryOf(u, q);
    }
  }

  /** Two stop calls without start calls change the map unless neither stream is counted. */
  lemma StoppedUnstarted(t: Table, a: Stream, b: Stream)
    requires a != b
    ensures StopAll(t, [a, b]).entries == t.entries <==> a !in t.entries && b !in t.entries
  {
    var calls := [a, b];
    var after := StopAll(t, calls);
    forall q
      ensures EntryOf(after, q) == EntryOf(t, q) <==> q !in calls || q !in t.entries
    {
      StopAllEntry(t, calls, q);
    }
    assert a in calls && b in calls;
    if a !in t.entries && b !in t.entries {
      SameEntries(after, t);
    } else {
      assert EntryOf(after, a) != EntryOf(t, a) || EntryOf(after, b) != EntryOf(t, b);
    }
  }

  /** Subscribing to a topic and unsubscribing from it again leaves the map as it was exactly if the topic is no unparsable
      block topic or none of the streams that such a topic stops is counted. */
  lemma UnsubscribeUndoesSubscribe(t: Table, topic: string, identifiers: seq<int>, owner: nat)
    requires TableInv(t) && |StartRoute(topic)| <= |identifiers|
    ensures StopAll(AddAll(t, StartRoute(topic), identifiers, owner), StopRoute(topic)).entries == t.entries
       <==> !Unparsable(topic) || (AcceptedBlocks !in t.entries && ConfirmedBlocks !in t.entries)
  {
    if Unparsable(topic) {
      RoutesAgree(topic);
      assert AddAll(t, [], identifiers, owner) == t;
      StoppedUnstarted(t, AcceptedBlocks, ConfirmedBlocks);
    } else {
      ParsableIsUndone(t, topic, identifiers, owner);
    }
  }

  lemma ParsableIsUndone(t: Table, topic: string, identifiers: seq<int>, owner: nat)
    requires TableInv(t) && |StartRoute(topic)| <= |identifiers| && !Unparsable(topic)
    ensures StopAll(AddAll(t, StartRoute(topic), identifiers, owner), StopRoute(topic)).entries == t.entries
  {
    RoutesAgree(topic);
    RoutesShape(topic);
    var route := StartRoute(topic);
    var after := StopAll(AddAll(t, route, identifiers, owner), route);
    forall q
      ensures EntryOf(after, q) == EntryOf(t, q)
    {
      assert q in t.entries ==> EntryInv(t, q);
      EntryRestored(t, route, identifiers, owner, q);
    }
    SameEntries(after, t);
  }
}
