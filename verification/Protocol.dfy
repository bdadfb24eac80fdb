/** What every run of the listener protocol keeps. */
module Protocol {
  import opened Wrappers
  import Hex
  import opened Topics
  import opened GoStrings
  import opened Routing
  import opened Listeners

  /** Whether a subscription has a start call on `s` behind it whose stop call is still to come. */
  predicate Holds(sub: Subscription, s: Stream) {
    match sub.stage
    case Subscribing(k) => s in StartRoute(sub.topic)[..if k <= |StartRoute(sub.topic)| then k else |StartRoute(sub.topic)|]
    case Live => s in StartRoute(sub.topic)
    case Unsubscribing(k) =>
      s in StartRoute(sub.topic) && s !in StopRoute(sub.topic)[..if k <= |StopRoute(sub.topic)| then k else |StopRoute(sub.topic)|]
  }

  function Holding(subs: Subscriptions, s: Stream): set<nat> {
    set id | id in subs && Holds(subs[id], s)
  }

  /** The number of subscriptions that hold a stream. */
  function Units(subs: Subscriptions, s: Stream): nat {
    |Holding(subs, s)|
  }

  function Weight(sub: Subscription, s: Stream): nat {
    if Holds(sub, s) then 1 else 0
  }

  function WeightAt(subs: Subscriptions, id: nat, s: Stream): nat {
    if id in subs then Weight(subs[id], s) else 0
  }

  lemma SwapSize(a: set<nat>, b: set<nat>, id: nat)
    requires a - {id} == b - {id}
    ensures |b| == |a| - (if id in a then 1 else 0) + (if id in b then 1 else 0)
  {
    assert id in a ==> a == (a - {id}) + {id};
    assert id in b ==> b == (b - {id}) + {id};
    assert id !in a ==> a == a - {id};
    assert id !in b ==> b == b - {id};
  }

  lemma UnitsUpdate(subs: Subscriptions, id: nat, sub: Subscription, s: Stream)
    ensures Units(subs[id := sub], s) == Units(subs, s) - WeightAt(subs, id, s) + Weight(sub, s)
  {
    var a, b := Holding(subs, s), Holding(subs[id := sub], s);
    assert a - {id} == b - {id};
    SwapSize(a, b, id);
  }

  lemma UnitsRemove(subs: Subscriptions, id: nat, s: Stream)
    ensures Units(subs - {id}, s) == Units(subs, s) - WeightAt(subs, id, s)
  {
    var a, b := Holding(subs, s), Holding(subs - {id}, s);
    assert b == a - {id};
  }

  lemma StartCallHolds(sub: Subscription, k: nat, s: Stream)
    requires sub.stage == Subscribing(k) && k < |StartRoute(sub.topic)|
    ensures Weight(sub.(stage := Subscribing(k + 1)), s) == Weight(sub, s) + (if s == StartRoute(sub.topic)[k] then 1 else 0)
  {
    RoutesShape(sub.topic);
    var r := StartRoute(sub.topic);
    assert r[..k + 1] == r[..k] + [r[k]];
  }

  lemma StopCallHolds(sub: Subscription, k: nat, s: Stream)
    requires sub.stage == Unsubscribing(k) && k < |StopRoute(sub.topic)|
    ensures Weight(sub.(stage := Unsubscribing(k + 1)), s)
         == Weight(sub, s) - (if s == StopRoute(sub.topic)[k] && s in StartRoute(sub.topic) then 1 else 0)
  {
    RoutesShape(sub.topic);
    var r := StopRoute(sub.topic);
    assert r[..k + 1] == r[..k] + [r[k]];
  }

  /** Ending an event changes no held stream. */
  lemma StageEndsHold(sub: Subscription, s: Stream)
    ensures sub.stage == Subscribing(|StartRoute(sub.topic)|) ==> Weight(sub.(stage := Live), s) == Weight(sub, s)
    ensures sub.stage == Live ==> Weight(sub.(stage := Unsubscribing(0)), s) == Weight(sub, s)
    ensures sub.stage == Unsubscribing(|StopRoute(sub.topic)|) ==> Weight(sub, s) == 0
    ensures Weight(sub.(stage := Subscribing(0)), s) == 0
  {
    RoutesShape(sub.topic);
    assert StartRoute(sub.topic)[..|StartRoute(sub.topic)|] == StartRoute(sub.topic);
    assert StopRoute(sub.topic)[..|StopRoute(sub.topic)|] == StopRoute(sub.topic);
  }

  function CountOf(t: Table, s: Stream): int {
    if s in t.entries then t.entries[s].count else 0
  }

  /** No entry counts more subscriptions than hold its stream. */
  ghost predicate CountInv(st: State) {
    forall s :: s in st.table.entries ==> st.table.entries[s].count <= Units(st.subs, s)
  }

  ghost predicate Inv(st: State) {
    TableInv(st.table) && CountInv(st)
  }

  /** In quiet runs the counts are exact, every owner still listens, and what is being stopped was started. */
  ghost predicate ExactInv(st: State) {
    && !st.parentCancelled
    && (forall s :: CountOf(st.table, s) == Units(st.subs, s))
    && (forall l :: l in st.table.listeners && (st.table.listeners[l].phase.Returned? || st.table.listeners[l].phase.Removed?)
          ==> st.table.listeners[l].cancelled)
    && (forall id :: id in st.subs && st.subs[id].stage.Unsubscribing? ==> StartRoute(st.subs[id].topic) == StopRoute(st.subs[id].topic))
  }

  /** The effect of a step on the held units of a stream. */
  function UnitsDelta(st: State, step: Step, s: Stream): int
    requires StepFits(st, step)
  {
    match step
    case StartCall(id, _, _) =>
      if s == StartRoute(st.subs[id].topic)[st.subs[id].stage.calls] then 1 else 0
    case StopCall(id) =>
      if s == StopRoute(st.subs[id].topic)[st.subs[id].stage.calls] && s in StartRoute(st.subs[id].topic) then -1 else 0
    case _ => 0
  }

  predicate StepFits(st: State, step: Step) {
    match step
    case StartCall(id, _, _) => id in st.subs && st.subs[id].stage.Subscribing? && st.subs[id].stage.calls < |StartRoute(st.subs[id].topic)|
    case StopCall(id) => id in st.subs && st.subs[id].stage.Unsubscribing? && st.subs[id].stage.calls < |StopRoute(st.subs[id].topic)|
    case _ => true
  }

  lemma StepUnits(st: State, step: Step, s: Stream)
    requires Enabled(st, step)
    ensures Units(Apply(st, step).subs, s) == Units(st.subs, s) + UnitsDelta(st, step, s)
  {
    match step
    case BeginSubscribe(id, client, topic) =>
      var sub := Subscription(client, topic, Subscribing(0));
      StageEndsHold(sub, s);
      UnitsUpdate(st.subs, id, sub, s);
    case StartCall(id, _, _) =>
      StartCallHolds(st.subs[id], st.subs[id].stage.calls, s);
      StageUnits(st, id, Subscribing(st.subs[id].stage.calls + 1), s);
    case EndSubscribe(id) =>
      StageEndsHold(st.subs[id], s);
      StageUnits(st, id, Live, s);
    case BeginUnsubscribe(id) =>
      StageEndsHold(st.subs[id], s);
      StageUnits(st, id, Unsubscribing(0), s);
    case StopCall(id) =>
      StopCallHolds(st.subs[id], st.subs[id].stage.calls, s);
      StageUnits(st, id, Unsubscribing(st.subs[id].stage.calls + 1), s);
    case EndUnsubscribe(id) =>
      StageEndsHold(st.subs[id], s);
      UnitsRemove(st.subs, id, s);
    case _ =>
  }

  lemma StageUnits(st: State, id: nat, stage: Stage, s: Stream)
    requires id in st.subs
    ensures Units(SetStage(st, id, stage).subs, s)
         == Units(st.subs, s) - Weight(st.subs[id], s) + Weight(st.subs[id].(stage := stage), s)
  {
    UnitsUpdate(st.subs, id, st.subs[id].(stage := stage), s);
  }

  lemma StepKeepsTableInv(st: State, step: Step)
    requires TableInv(st.table) && Enabled(st, step)
    ensures TableInv(Apply(st, step).table)
  {
    match step
    case StartCall(id, identifier, owner) =>
      AddKeepsTableInv(st.table, StartRoute(st.subs[id].topic)[st.subs[id].stage.calls], identifier, owner);
    case StopCall(id) => StopKeepsTableInv(st.table, StopRoute(st.subs[id].topic)[st.subs[id].stage.calls]);
    case ListenerStarts(l) => AdvanceKeepsTableInv(st.table, l, Listening);
    case ListenerReturns(l) => AdvanceKeepsTableInv(st.table, l, Returned);
    case ListenerRemoves(l) => RemoveKeepsTableInv(st.table, l);
    case _ =>
  }

  lemma StepKeepsInv(st: State, step: Step)
    requires Inv(st) && Enabled(st, step)
    ensures Inv(Apply(st, step))
  {
    var st' := Apply(st, step);
    StepKeepsTableInv(st, step);
    forall s | s in st'.table.entries
      ensures st'.table.entries[s].count <= Units(st'.subs, s)
    {
      StepUnits(st, step, s);
    }
  }

  lemma CountAfterAdd(t: Table, s: Stream, identifier: int, owner: nat, q: Stream)
    ensures CountOf(Add(t, s, identifier, owner), q) == CountOf(t, q) + (if q == s then 1 else 0)
  {}

  lemma CountAfterStop(t: Table, s: Stream, q: Stream)
    requires TableInv(t)
    ensures CountOf(Stop(t, s), q) == CountOf(t, q) - (if q == s && s in t.entries then 1 else 0)
  {
    if s in t.entries { assert EntryInv(t, s); }
  }

  /** A cancelled listener no longer owns an entry, so its clean-up changes nothing. */
  lemma CountAfterRemove(t: Table, l: nat, q: Stream)
    requires TableInv(t) && InPhase(t, l, Returned) && t.listeners[l].cancelled
    ensures CountOf(Remove(Advance(t, l, Removed), t.listeners[l].stream, t.listeners[l].identifier), q) == CountOf(t, q)
  {}

  lemma StepKeepsCount(st: State, step: Step, s: Stream)
    requires Inv(st) && ExactInv(st) && Enabled(st, step) && Quiet(st, step)
    ensures CountOf(Apply(st, step).table, s) == CountOf(st.table, s) + UnitsDelta(st, step, s)
  {
    match step
    case StartCall(id, identifier, owner) =>
      CountAfterAdd(st.table, StartRoute(st.subs[id].topic)[st.subs[id].stage.calls], identifier, owner, s);
    case StopCall(id) => StopCallKeepsCount(st, id, s);
    case ListenerRemoves(l) => CountAfterRemove(st.table, l, s);
    case _ =>
  }

  /** A quiet stop call finds the entry of the stream, because the subscription still holds it. */
  lemma StopCallKeepsCount(st: State, id: nat, s: Stream)
    requires Inv(st) && ExactInv(st) && Enabled(st, StopCall(id))
    ensures CountOf(Apply(st, StopCall(id)).table, s) == CountOf(st.table, s) + UnitsDelta(st, StopCall(id), s)
  {
    var sub := st.subs[id];
    var q := StopRoute(sub.topic)[sub.stage.calls];
    CountAfterStop(st.table, q, s);
    StopCallHolds(sub, sub.stage.calls, q);
    assert id in Holding(st.subs, q);
    assert CountOf(st.table, q) == Units(st.subs, q) && Holding(st.subs, q) != {};
  }

  lemma StepKeepsExact(st: State, step: Step)
    requires Inv(st) && ExactInv(st) && Enabled(st, step) && Quiet(st, step)
    ensures ExactInv(Apply(st, step))
  {
    forall s
      ensures CountOf(Apply(st, step).table, s) == Units(Apply(st, step).subs, s)
    {
      assert CountOf(st.table, s) == Units(st.subs, s);
      StepKeepsCount(st, step, s);
      StepUnits(st, step, s);
    }
    if step.BeginUnsubscribe? {
      RoutesAgree(st.subs[step.id].topic);
    }
  }

  lemma InitialInv()
    ensures Inv(INITIAL) && ExactInv(INITIAL)
  {}

  lemma {:induction false} RunKeepsInv(steps: seq<Step>, quiet: bool)
    requires Exec(steps, quiet).Some?
    ensures Inv(Exec(steps, quiet).value)
    ensures quiet ==> ExactInv(Exec(steps, quiet).value)
  {
    if steps == [] {
      InitialInv();
    } else {
      var before, step := steps[..|steps| - 1], steps[|steps| - 1];
      RunKeepsInv(before, quiet);
      StepKeepsInv(Exec(before, quiet).value, step);
      if quiet {
        StepKeepsExact(Exec(before, quiet).value, step);
      }
    }
  }

  // Results over every run, with any interleaving and any failures.

  /** A listener that was neither cancelled nor has returned. */
  predicate Running(t: Table, l: nat) {
    l in t.listeners && !t.listeners[l].cancelled && (t.listeners[l].phase.Spawned? || t.listeners[l].phase.Listening?)
  }

  /** Every running listener is the one that the map records for its stream, so a stream never has two. */
  lemma AtMostOneRunningListener(steps: seq<Step>, l: nat, m: nat)
    requires Exec(steps, false).Some?
    requires var t := Exec(steps, false).value.table; Running(t, l) && Running(t, m) && t.listeners[l].stream == t.listeners[m].stream
    ensures l == m
    ensures var t := Exec(steps, false).value.table;
            t.listeners[l].stream in t.entries && t.entries[t.listeners[l].stream].owner == l
            && t.entries[t.listeners[l].stream].identifier == t.listeners[l].identifier
  {
    RunKeepsInv(steps, false);
    var t := Exec(steps, false).value.table;
    assert ListenerInv(t, l) && ListenerInv(t, m) && EntryInv(t, t.listeners[l].stream);
  }

  /** The late clean-up of a goroutine deletes its own entry or nothing. */
  lemma LateRemoveSparesNewerEntry(steps: seq<Step>, l: nat, s: Stream)
    requires Exec(steps, false).Some? && Enabled(Exec(steps, false).value, ListenerRemoves(l))
    ensures var before := Exec(steps, false).value;
            var after := Apply(before, ListenerRemoves(l));
            s in after.table.entries <==> s in before.table.entries && before.table.entries[s].owner != l
    ensures var before := Exec(steps, false).value;
            var after := Apply(before, ListenerRemoves(l));
            s in after.table.entries ==> after.table.entries[s] == before.table.entries[s]
  {
    RunKeepsInv(steps, false);
    var t := Exec(steps, false).value.table;
    RemoveOnlyOwnEntry(t, l);
    if s in t.entries { assert EntryInv(t, s); }
  }

  /** A counted stream is held by at least as many subscriptions; a stream that nobody holds has neither entry nor running listener. */
  lemma NoOrphans(steps: seq<Step>, s: Stream)
    requires Exec(steps, false).Some?
    ensures var st := Exec(steps, false).value;
            s in st.table.entries ==> 1 <= st.table.entries[s].count <= Units(st.subs, s)
    ensures var st := Exec(steps, false).value;
            Units(st.subs, s) == 0 ==> s !in st.table.entries && forall l :: Running(st.table, l) ==> st.table.listeners[l].stream != s
  {
    RunKeepsInv(steps, false);
    var t := Exec(steps, false).value.table;
    if s in t.entries { assert EntryInv(t, s); }
    forall l | Running(t, l) && Units(Exec(steps, false).value.subs, s) == 0
      ensures t.listeners[l].stream != s
    {
      assert ListenerInv(t, l);
    }
  }

  /** Once all subscriptions are gone the map is empty and every goroutine is cancelled or has cleaned up after itself. */
  lemma AllGone(steps: seq<Step>)
    requires Exec(steps, false).Some? && Exec(steps, false).value.subs == map[]
    ensures var t := Exec(steps, false).value.table;
            t.entries == map[] && forall l :: l in t.listeners ==> t.listeners[l].cancelled || t.listeners[l].phase.Removed?
  {
    RunKeepsInv(steps, false);
    var st := Exec(steps, false).value;
    forall s
      ensures s !in st.table.entries
    {
      assert Holding(st.subs, s) == {};
      assert s in st.table.entries ==> EntryInv(st.table, s);
    }
    forall l | l in st.table.listeners
      ensures st.table.listeners[l].cancelled || st.table.listeners[l].phase.Removed?
    {
      assert ListenerInv(st.table, l);
    }
  }

  // Results over quiet runs.

  /** No subscribe or unsubscribe event is half processed. */
  ghost predicate AtBoundary(st: State) {
    forall id :: id in st.subs ==> st.subs[id].stage.Live?
  }

  /** The live subscriptions whose topic needs a stream. */
  function Needing(subs: Subscriptions, s: Stream): set<nat> {
    set id | id in subs && s in StartRoute(subs[id].topic)
  }

  /** Between events the map counts, for each stream, exactly the live subscriptions that need it. */
  lemma ExactCounts(steps: seq<Step>, s: Stream)
    requires Exec(steps, true).Some? && AtBoundary(Exec(steps, true).value)
    ensures var st := Exec(steps, true).value;
            (s in st.table.entries <==> exists id :: id in st.subs && s in StartRoute(st.subs[id].topic))
            && (s in st.table.entries ==> st.table.entries[s].count == |Needing(st.subs, s)|)
  {
    RunKeepsInv(steps, true);
    var st := Exec(steps, true).value;
    assert Holding(st.subs, s) == Needing(st.subs, s);
    assert CountOf(st.table, s) == Units(st.subs, s);
    if s in st.table.entries {
      assert EntryInv(st.table, s);
      assert exists id :: id in Needing(st.subs, s) by {
        assert Needing(st.subs, s) != {};
      }
    } else {
      assert |Needing(st.subs, s)| == 0;
      assert Needing(st.subs, s) == {};
      forall id | id in st.subs
        ensures s !in StartRoute(st.subs[id].topic)
      {
        assert id !in Needing(st.subs, s);
      }
    }
  }

  /** Between events every live subscription has, for each stream that its topic needs, a recorded listener whose context is alive. */
  lemma LiveSubscriberHasListener(steps: seq<Step>, id: nat, s: Stream)
    requires Exec(steps, true).Some? && AtBoundary(Exec(steps, true).value)
    requires var st := Exec(steps, true).value; id in st.subs && s in StartRoute(st.subs[id].topic)
    ensures var st := Exec(steps, true).value;
            s in st.table.entries
            && Running(st.table, st.table.entries[s].owner)
            && st.table.listeners[st.table.entries[s].owner].stream == s
            && !st.parentCancelled
  {
    ExactCounts(steps, s);
    RunKeepsInv(steps, true);
    assert EntryInv(Exec(steps, true).value.table, s);
  }

  /** A quiet run is a run. */
  lemma {:induction false} QuietRunIsRun(steps: seq<Step>)
    requires Exec(steps, true).Some?
    ensures Exec(steps, false) == Exec(steps, true)
  {
    if steps != [] {
      QuietRunIsRun(steps[..|steps| - 1]);
    }
  }

  // Why the assumptions are needed.

  /** Were an identifier reused while its first goroutine has not cleaned up, the clean-up would drop the newer entry and leave its listener running unrecorded. */
  lemma ReusedIdentifierOrphansListener(s: Stream, identifier: int)
    ensures var t1 := Add(Table(map[], map[]), s, identifier, 0);
            var t2 := Add(Stop(Advance(t1, 0, Listening), s), s, identifier, 1);
            var t3 := Remove(Advance(t2, 0, Removed), s, identifier);
            TableInv(t1) && Running(t3, 1) && t3.listeners[1].stream == s && s !in t3.entries
  {}

  lemma ExecOne(steps: seq<Step>, step: Step, quiet: bool)
    requires Exec(steps, quiet).Some? && Enabled(Exec(steps, quiet).value, step) && (quiet ==> Quiet(Exec(steps, quiet).value, step))
    ensures Exec(steps + [step], quiet) == Some(Apply(Exec(steps, quiet).value, step))
  {}

  /** After every run a goroutine that was spawned can start to listen, one that listens can return, whether or not it was cancelled,
      and one that returned can clean up; the parent context can be cancelled at any time. In quiet runs only cancelled ones return. */
  lemma ListenersAreFree(steps: seq<Step>, quiet: bool, l: nat)
    requires Exec(steps, quiet).Some?
    ensures var st := Exec(steps, quiet).value;
            && Exec(steps + [CancelParent], quiet) == (if quiet then None else Some(st.(parentCancelled := true)))
            && (InPhase(st.table, l, Spawned) ==> Exec(steps + [ListenerStarts(l)], quiet) == Some(st.(table := Advance(st.table, l, Listening))))
            && (InPhase(st.table, l, Listening) ==>
                  Exec(steps + [ListenerReturns(l)], quiet)
                  == if quiet && !st.table.listeners[l].cancelled then None else Some(st.(table := Advance(st.table, l, Returned))))
            && (InPhase(st.table, l, Returned) ==> Exec(steps + [ListenerRemoves(l)], quiet).Some?)
  {
    StepExec(steps, CancelParent, quiet);
    StepExec(steps, ListenerStarts(l), quiet);
    ReturnIsFree(steps, quiet, l);
    StepExec(steps, ListenerRemoves(l), quiet);
  }

  lemma ReturnIsFree(steps: seq<Step>, quiet: bool, l: nat)
    requires Exec(steps, quiet).Some?
    ensures var st := Exec(steps, quiet).value;
            InPhase(st.table, l, Listening) ==>
              Exec(steps + [ListenerReturns(l)], quiet)
              == if quiet && !st.table.listeners[l].cancelled then None else Some(st.(table := Advance(st.table, l, Returned)))
  {
    RunKeepsInv(steps, quiet);
    StepExec(steps, ListenerReturns(l), quiet);
  }

  lemma StepExec(steps: seq<Step>, step: Step, quiet: bool)
    requires Exec(steps, quiet).Some?
    ensures var st := Exec(steps, quiet).value;
            Exec(steps + [step], quiet) == if Enabled(st, step) && (quiet ==> Quiet(st, step)) then Some(Apply(st, step)) else None
  {
    assert (steps + [step])[..|steps|] == steps;
  }

  /** A listener that fails drops the record of its stream, while the subscriptions stay: after every run in which the recorded
      goroutine of a stream listens, it can return and clean up. */
  lemma FailingListenerDropsEntry(steps: seq<Step>, s: Stream)
    requires Exec(steps, false).Some?
    requires var t := Exec(steps, false).value.table; s in t.entries && InPhase(t, t.entries[s].owner, Listening)
    ensures var st := Exec(steps, false).value;
            var l := st.table.entries[s].owner;
            var after := Exec(steps + [ListenerReturns(l)] + [ListenerRemoves(l)], false);
            && !st.table.listeners[l].cancelled && st.table.listeners[l].stream == s
            && after.Some? && after.value.subs == st.subs && after.value.table.entries == st.table.entries - {s}
  {
    RunKeepsInv(steps, false);
    var st := Exec(steps, false).value;
    assert EntryInv(st.table, s);
    var l := st.table.entries[s].owner;
    ExecOne(steps, ListenerReturns(l), false);
    var returned := Exec(steps + [ListenerReturns(l)], false).value;
    RunKeepsInv(steps + [ListenerReturns(l)], false);
    ExecOne(steps + [ListenerReturns(l)], ListenerRemoves(l), false);
    RemoveOnlyOwnEntry(returned.table, l);
  }

  /** The calls of half-processed events can come next in any order, each with a fresh identifier and number; a quiet run stays quiet. */
  lemma CallsAreFree(steps: seq<Step>, quiet: bool, id: nat, identifier: int, owner: nat)
    requires Exec(steps, quiet).Some? && id in Exec(steps, quiet).value.subs
    requires owner !in Exec(steps, quiet).value.table.listeners && forall s :: FreshIdentifier(Exec(steps, quiet).value.table, s, identifier)
    ensures var st := Exec(steps, quiet).value;
            var sub := st.subs[id];
            match sub.stage
            case Subscribing(k) => k < |StartRoute(sub.topic)| ==>
              Exec(steps + [StartCall(id, identifier, owner)], quiet)
              == Some(SetStage(st, id, Subscribing(k + 1)).(table := Add(st.table, StartRoute(sub.topic)[k], identifier, owner)))
            case Live => !quiet || !Unparsable(sub.topic) ==>
              Exec(steps + [BeginUnsubscribe(id)], quiet) == Some(SetStage(st, id, Unsubscribing(0)))
            case Unsubscribing(k) => k < |StopRoute(sub.topic)| ==>
              Exec(steps + [StopCall(id)], quiet)
              == Some(SetStage(st, id, Unsubscribing(k + 1)).(table := Stop(st.table, StopRoute(sub.topic)[k])))
  {
    var sub := Exec(steps, quiet).value.subs[id];
    match sub.stage
    case Subscribing(k) => if k < |StartRoute(sub.topic)| { ExecOne(steps, StartCall(id, identifier, owner), quiet); }
    case Live => if !quiet || !Unparsable(sub.topic) { ExecOne(steps, BeginUnsubscribe(id), quiet); }
    case Unsubscribing(k) => if k < |StopRoute(sub.topic)| { ExecOne(steps, StopCall(id), quiet); }
  }

  lemma AcceptedExample()
    ensures StartRoute(METADATA_ACCEPTED) == [AcceptedBlocks]
  {}

  lemma SpelledRestIsHexText(prefix: string, rest: string, id: Hex.Bytes)
    requires Spells(prefix + rest, prefix, id, "")
    ensures Hex.IsHexText(rest)
  {
    SpelledDigits(prefix + rest, prefix, id);
    var hex :| prefix + rest == prefix + hex && Hex.IsHexText(hex);
    assert (prefix + rest)[|prefix|..] == rest && (prefix + hex)[|prefix|..] == hex;
  }

  /** An unparsable topic: what stands behind the prefix is no hexadecimal text. */
  lemma NoneIsUnparsable()
    ensures Unparsable("block-metadata/none")
  {
    NotRaw("block-metadata/none");
    assert "block-metadata/none" == "block-metadata/" + "none" && "none"[0] == 'n';
    forall id | Spells("block-metadata/" + "none", "block-metadata/", id, "")
      ensures Hex.IsHexText("none")
    {
      SpelledRestIsHexText("block-metadata/", "none", id);
    }
    UnparsableExact("block-metadata/none");
  }

  lemma VisitBegins(steps: seq<Step>, id: nat, client: string, u: string) returns (steps': seq<Step>)
    requires Exec(steps, false).Some? && id !in Exec(steps, false).value.subs && StartRoute(u) == []
    ensures Exec(steps', false) == Some(Exec(steps, false).value.(subs := Exec(steps, false).value.subs[id := Subscription(client, u, Unsubscribing(0))]))
  {
    var subs := Exec(steps, false).value.subs;
    ExecOne(steps, BeginSubscribe(id, client, u), false);
    steps' := steps + [BeginSubscribe(id, client, u)];
    ExecOne(steps', EndSubscribe(id), false);
    steps' := steps' + [EndSubscribe(id)];
    ExecOne(steps', BeginUnsubscribe(id), false);
    steps' := steps' + [BeginUnsubscribe(id)];
    assert Exec(steps', false).value.subs == subs[id := Subscription(client, u, Unsubscribing(0))];
  }

  lemma VisitEnds(steps: seq<Step>, id: nat, a: Stream, b: Stream) returns (steps': seq<Step>)
    requires Exec(steps, false).Some? && id in Exec(steps, false).value.subs
    requires var sub := Exec(steps, false).value.subs[id]; sub.stage == Unsubscribing(0) && StopRoute(sub.topic) == [a, b]
    ensures var st := Exec(steps, false).value;
            Exec(steps', false) == Some(State(Stop(Stop(st.table, a), b), st.subs - {id}, st.parentCancelled))
  {
    var st := Exec(steps, false).value;
    ExecOne(steps, StopCall(id), false);
    steps' := steps + [StopCall(id)];
    ExecOne(steps', StopCall(id), false);
    steps' := steps' + [StopCall(id)];
    ExecOne(steps', EndUnsubscribe(id), false);
    steps' := steps' + [EndUnsubscribe(id)];
    assert Exec(steps', false).value.subs == st.subs - {id};
  }

  /** From every reachable state, subscribing to an unparsable block topic and taking it back leaves the
      subscriptions as they were but takes one count from each of two streams that others may need. */
  lemma UnparsableVisitTakesCounts(steps: seq<Step>, id: nat, client: string, u: string)
    requires Exec(steps, false).Some? && id !in Exec(steps, false).value.subs && Unparsable(u)
    ensures exists after ::
      Exec(after, false) == Some(Exec(steps, false).value.(table := Stop(Stop(Exec(steps, false).value.table, AcceptedBlocks), ConfirmedBlocks)))
  {
    RoutesAgree(u);
    var begun := VisitBegins(steps, id, client, u);
    var after := VisitEnds(begun, id, AcceptedBlocks, ConfirmedBlocks);
    var subs := Exec(steps, false).value.subs;
    assert subs[id := Subscription(client, u, Unsubscribing(0))] - {id} == subs;
  }

  lemma FirstSubscriber(t: string) returns (steps: seq<Step>)
    requires StartRoute(t) == [AcceptedBlocks]
    ensures Exec(steps, false) == Some(State(Add(INITIAL.table, AcceptedBlocks, 0, 0), map[0 := Subscription("first", t, Live)], false))
  {
    ExecOne([], BeginSubscribe(0, "first", t), false);
    steps := [] + [BeginSubscribe(0, "first", t)];
    ExecOne(steps, StartCall(0, 0, 0), false);
    steps := steps + [StartCall(0, 0, 0)];
    ExecOne(steps, EndSubscribe(0), false);
    steps := steps + [EndSubscribe(0)];
    assert Exec(steps, false).value.subs == map[0 := Subscription("first", t, Live)];
  }

  /** So a live subscriber can lose the listener it needs, though no listener failed and the parent context is alive. */
  lemma UnparsableVisitStarvesSubscriber()
    ensures exists steps :: Exec(steps, false).Some? && AtBoundary(Exec(steps, false).value)
              && var st := Exec(steps, false).value;
                 0 in st.subs && AcceptedBlocks in StartRoute(st.subs[0].topic) && AcceptedBlocks !in st.table.entries && !st.parentCancelled
  {
    AcceptedExample();
    NoneIsUnparsable();
    var first := FirstSubscriber(METADATA_ACCEPTED);
    UnparsableVisitTakesCounts(first, 1, "second", "block-metadata/none");
    var after :| Exec(after, false) == Some(Exec(first, false).value.(table := Stop(Stop(Exec(first, false).value.table, AcceptedBlocks), ConfirmedBlocks)));
  }

  lemma StopUndoesCount(t: Table, s: Stream, identifier: int, owner: nat)
    requires s in t.entries && t.entries[s].count >= 1
    ensures Stop(Add(t, s, identifier, owner), s) == t
  {}

  /** A stop call undoes a start call: the map is as before, and a listener that the start call spawned is cancelled. */
  lemma StopUndoesAdd(t: Table, s: Stream, identifier: int, owner: nat)
    requires TableInv(t) && owner !in t.listeners
    ensures var t' := Stop(Add(t, s, identifier, owner), s);
            t'.entries == t.entries
            && t'.listeners == if s in t.entries then t.listeners else t.listeners[owner := Listener(s, identifier, Spawned, true)]
  {
    if s in t.entries {
      assert EntryInv(t, s);
      StopUndoesCount(t, s, identifier, owner);
    } else {
      assert t.entries[s := Entry(1, identifier, owner)] - {s} == t.entries;
    }
  }
}
