/** The reference-counted listener protocol of pkg/mqtt/server.go as a transition system over all interleavings. */
module Listeners {
  import opened Wrappers
  import opened Routing

  /** A record of the `grpcSubscriptions` map; `owner` names the goroutine that its context belongs to. */
  datatype Entry = Entry(count: int, identifier: int, owner: nat)

  datatype Phase = Spawned | Listening | Returned | Removed

  /** A goroutine that `startListenIfNeeded` spawned; `cancelled` tells whether its own cancel function was called. */
  datatype Listener = Listener(stream: Stream, identifier: int, phase: Phase, cancelled: bool)

  datatype Table = Table(entries: map<Stream, Entry>, listeners: map<nat, Listener>)

  // The three critical sections.

  function Add(t: Table, s: Stream, identifier: int, owner: nat): Table {
    if s in t.entries then
      t.(entries := t.entries[s := t.entries[s].(count := t.entries[s].count + 1)])
    else
      Table(t.entries[s := Entry(1, identifier, owner)], t.listeners[owner := Listener(s, identifier, Spawned, false)])
  }

  function Cancel(listeners: map<nat, Listener>, l: nat): map<nat, Listener> {
    if l in listeners then listeners[l := listeners[l].(cancelled := true)] else listeners
  }

  function Stop(t: Table, s: Stream): Table {
    if s !in t.entries then t
    else
      var e := t.entries[s].(count := t.entries[s].count - 1);
      if e.count == 0 then Table(t.entries - {s}, Cancel(t.listeners, e.owner))
      else t.(entries := t.entries[s := e])
  }

  function Remove(t: Table, s: Stream, identifier: int): Table {
    if s in t.entries && t.entries[s].identifier == identifier then t.(entries := t.entries - {s}) else t
  }

  // Subscriptions. Each occurrence of a (client, topic) pair has its own key, so that the map stands for a multiset.

  datatype Stage = Subscribing(calls: nat) | Live | Unsubscribing(calls: nat)

  datatype Subscription = Subscription(client: string, topic: string, stage: Stage)

  type Subscriptions = map<nat, Subscription>

  datatype State = State(table: Table, subs: Subscriptions, parentCancelled: bool)

  const INITIAL := State(Table(map[], map[]), map[], false)

  datatype Step =
    | BeginSubscribe(id: nat, client: string, topic: string)
    | StartCall(id: nat, identifier: int, owner: nat)
    | EndSubscribe(id: nat)
    | BeginUnsubscribe(id: nat)
    | StopCall(id: nat)
    | EndUnsubscribe(id: nat)
    | ListenerStarts(l: nat)
    | ListenerReturns(l: nat)
    | ListenerRemoves(l: nat)
    | CancelParent

  /** Identifiers are random; a new one differs from those that a goroutine of the stream may still remove. */
  ghost predicate FreshIdentifier(t: Table, s: Stream, identifier: int) {
    forall l :: l in t.listeners && t.listeners[l].stream == s && !t.listeners[l].phase.Removed? ==> t.listeners[l].identifier != identifier
  }

  predicate InPhase(t: Table, l: nat, phase: Phase) {
    l in t.listeners && t.listeners[l].phase == phase
  }

  function Advance(t: Table, l: nat, phase: Phase): Table
    requires l in t.listeners
  {
    t.(listeners := t.listeners[l := t.listeners[l].(phase := phase)])
  }

  ghost predicate Enabled(st: State, step: Step) {
    match step
    case BeginSubscribe(id, _, _) => id !in st.subs
    case StartCall(id, identifier, owner) =>
      && id in st.subs && st.subs[id].stage.Subscribing?
      && st.subs[id].stage.calls < |StartRoute(st.subs[id].topic)|
      && owner !in st.table.listeners
      && FreshIdentifier(st.table, StartRoute(st.subs[id].topic)[st.subs[id].stage.calls], identifier)
    case EndSubscribe(id) => id in st.subs && st.subs[id].stage == Subscribing(|StartRoute(st.subs[id].topic)|)
    case BeginUnsubscribe(id) => id in st.subs && st.subs[id].stage == Live
    case StopCall(id) =>
      && id in st.subs && st.subs[id].stage.Unsubscribing?
      && st.subs[id].stage.calls < |StopRoute(st.subs[id].topic)|
    case EndUnsubscribe(id) => id in st.subs && st.subs[id].stage == Unsubscribing(|StopRoute(st.subs[id].topic)|)
    case ListenerStarts(l) => InPhase(st.table, l, Spawned)
    case ListenerReturns(l) => InPhase(st.table, l, Listening)
    case ListenerRemoves(l) => InPhase(st.table, l, Returned)
    case CancelParent => true
  }

  function SetStage(st: State, id: nat, stage: Stage): State
    requires id in st.subs
  {
    st.(subs := st.subs[id := st.subs[id].(stage := stage)])
  }

  function Apply(st: State, step: Step): State
    requires Enabled(st, step)
  {
    match step
    case BeginSubscribe(id, client, topic) => st.(subs := st.subs[id := Subscription(client, topic, Subscribing(0))])
    case StartCall(id, identifier, owner) =>
      var k := st.subs[id].stage.calls;
      SetStage(st, id, Subscribing(k + 1)).(table := Add(st.table, StartRoute(st.subs[id].topic)[k], identifier, owner))
    case EndSubscribe(id) => SetStage(st, id, Live)
    case BeginUnsubscribe(id) => SetStage(st, id, Unsubscribing(0))
    case StopCall(id) =>
      var k := st.subs[id].stage.calls;
      SetStage(st, id, Unsubscribing(k + 1)).(table := Stop(st.table, StopRoute(st.subs[id].topic)[k]))
    case EndUnsubscribe(id) => st.(subs := st.subs - {id})
    case ListenerStarts(l) => st.(table := Advance(st.table, l, Listening))
    case ListenerReturns(l) => st.(table := Advance(st.table, l, Returned))
    case ListenerRemoves(l) =>
      st.(table := Remove(Advance(st.table, l, Removed), st.table.listeners[l].stream, st.table.listeners[l].identifier))
    case CancelParent => st.(parentCancelled := true)
  }

  /** A step of a run without failures: listeners return only when cancelled, the parent context lives, and no unparsable topic is unsubscribed. */
  ghost predicate Quiet(st: State, step: Step)
    requires Enabled(st, step)
  {
    match step
    case ListenerReturns(l) => st.table.listeners[l].cancelled
    case CancelParent => false
    case BeginUnsubscribe(id) => !Unparsable(st.subs[id].topic)
    case _ => true
  }

  /** The state after a sequence of steps, if each of them is possible (and quiet, where that is asked for). */
  ghost function Exec(steps: seq<Step>, quiet: bool): Option<State> {
    if steps == [] then Some(INITIAL)
    else
      match Exec(steps[..|steps| - 1], quiet)
      case None => None
      case Some(st) =>
        var step := steps[|steps| - 1];
        if Enabled(st, step) && (quiet ==> Quiet(st, step)) then Some(Apply(st, step)) else None
  }

  // Invariants of the table.

  ghost predicate EntryInv(t: Table, s: Stream)
    requires s in t.entries
  {
    var e := t.entries[s];
    1 <= e.count && e.owner in t.listeners && t.listeners[e.owner].stream == s
    && t.listeners[e.owner].identifier == e.identifier
    && !t.listeners[e.owner].cancelled && !t.listeners[e.owner].phase.Removed?
  }

  /** A listener that is neither cancelled nor removed owns the entry of its stream. */
  ghost predicate ListenerInv(t: Table, l: nat)
    requires l in t.listeners
  {
    var g := t.listeners[l];
    !g.cancelled && !g.phase.Removed? ==> g.stream in t.entries && t.entries[g.stream].owner == l
  }

  ghost predicate DistinctIdentifiers(t: Table) {
    forall l, m :: l in t.listeners && m in t.listeners && l != m
      && t.listeners[l].stream == t.listeners[m].stream && !t.listeners[l].phase.Removed? && !t.listeners[m].phase.Removed?
      ==> t.listeners[l].identifier != t.listeners[m].identifier
  }

  ghost predicate TableInv(t: Table) {
    && (forall s :: s in t.entries ==> EntryInv(t, s))
    && (forall l :: l in t.listeners ==> ListenerInv(t, l))
    && DistinctIdentifiers(t)
  }

  lemma AddKeepsTableInv(t: Table, s: Stream, identifier: int, owner: nat)
    requires TableInv(t) && owner !in t.listeners && FreshIdentifier(t, s, identifier)
    ensures TableInv(Add(t, s, identifier, owner))
  {
    if s in t.entries {
      CountKeepsTableInv(t, s, identifier, owner);
    } else {
      RecordKeepsEntries(t, s, identifier, owner);
      RecordKeepsListeners(t, s, identifier, owner);
    }
  }

  lemma CountKeepsTableInv(t: Table, s: Stream, identifier: int, owner: nat)
    requires TableInv(t) && s in t.entries
    ensures TableInv(Add(t, s, identifier, owner))
  {}

  lemma RecordKeepsEntries(t: Table, s: Stream, identifier: int, owner: nat)
    requires TableInv(t) && owner !in t.listeners && s !in t.entries
    ensures var t' := Add(t, s, identifier, owner); forall q :: q in t'.entries ==> EntryInv(t', q)
  {}

  lemma RecordKeepsListeners(t: Table, s: Stream, identifier: int, owner: nat)
    requires TableInv(t) && owner !in t.listeners && s !in t.entries && FreshIdentifier(t, s, identifier)
    ensures var t' := Add(t, s, identifier, owner); DistinctIdentifiers(t') && forall l :: l in t'.listeners ==> ListenerInv(t', l)
  {}

  lemma StopKeepsTableInv(t: Table, s: Stream)
    requires TableInv(t)
    ensures TableInv(Stop(t, s))
  {
    var t' := Stop(t, s);
    forall q | q in t'.entries
      ensures EntryInv(t', q)
    {
      assert EntryInv(t, q);
      if q != s && s in t.entries { assert EntryInv(t, s); }
    }
    forall l | l in t'.listeners
      ensures ListenerInv(t', l)
    {
      assert ListenerInv(t, l);
    }
  }

  lemma AdvanceKeepsTableInv(t: Table, l: nat, phase: Phase)
    requires TableInv(t) && l in t.listeners && !t.listeners[l].phase.Removed? && !phase.Removed?
    ensures TableInv(Advance(t, l, phase))
  {}

  /** A finished goroutine deletes the entry of its stream exactly when it owns it. */
  lemma RemoveOnlyOwnEntry(t: Table, l: nat)
    requires TableInv(t) && l in t.listeners && !t.listeners[l].phase.Removed?
    ensures var g := t.listeners[l];
            var t' := Remove(Advance(t, l, Removed), g.stream, g.identifier);
            t'.entries == if g.stream in t.entries && t.entries[g.stream].owner == l then t.entries - {g.stream} else t.entries
  {
    var g := t.listeners[l];
    if g.stream in t.entries {
      assert EntryInv(t, g.stream);
    }
  }

  lemma RemoveKeepsTableInv(t: Table, l: nat)
    requires TableInv(t) && l in t.listeners && !t.listeners[l].phase.Removed?
    ensures TableInv(Remove(Advance(t, l, Removed), t.listeners[l].stream, t.listeners[l].identifier))
  {
    RemoveOnlyOwnEntry(t, l);
    var t' := Remove(Advance(t, l, Removed), t.listeners[l].stream, t.listeners[l].identifier);
    forall q | q in t'.entries
      ensures EntryInv(t', q)
    {
      assert EntryInv(t, q);
    }
    forall m | m in t'.listeners
      ensures ListenerInv(t', m)
    {
      assert ListenerInv(t, m);
    }
  }
}
