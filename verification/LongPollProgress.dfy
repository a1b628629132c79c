/** A notified poller gets through: whatever else happens meanwhile, it never blocks again and has
    its answer after at most four steps of its own. */
module LongPollProgress {
  import opened Prelude
  import opened Requests
  import opened Notifications
  import opened LongPoll
  import opened LongPollSafety
  import opened LongPollTheorems

  /** The request exists or did, and is pending no more. */
  predicate Over(w: World, st: State) {
    st in w.born && !IsPending(w, st)
  }

  /** Its channel holds a value and is closed, as a notification leaves it. */
  predicate Notified(hub: Hub<nat>, p: Poller) {
    p.watch.Some? && p.watch.value in hub.chans && hub.chans[p.watch.value] == ChanState(false, true)
  }

  /** A poller on its way to an answer. */
  predicate Awake(w: World, p: Poller) {
    && p.response.None?
    && Over(w, p.st)
    && (p.pc.Looping? || p.pc.Collecting? || (p.pc.Parked? && Notified(w.hub, p)))
  }

  /** How many steps of its own it still needs at most. */
  function Remaining(w: World, p: Poller): nat
    requires Awake(w, p)
  {
    match p.pc
    case Collecting(_) => 2
    case Looping(g) => if g.Expire? then 4 else if p.st in w.rows then 3 else 1
    case _ => 4
  }

  predicate Spoils(a: Action, id: nat) {
    a == Disconnect(id) || a == PollerDbError(id)
  }

  /** It answered; unless its client left or the database failed, with what the request came to. */
  predicate Served(p: Poller, spoiled: bool) {
    && (p.pc.Leaving? || p.pc.Returned?)
    && p.response.Some?
    && (!spoiled ==> p.response.value.Gone? || p.response.value.Done? || p.response.value.Failed?)
  }

  // ---------------------------------------------------------------------------
  // One step
  // ---------------------------------------------------------------------------

  /** Its own step is always possible, and brings it nearer. */
  lemma OwnStepAdvances(w: World, id: nat)
    requires id in w.pollers && Awake(w, w.pollers[id])
    ensures var next := Step(w, PollerStep(id));
            && next.Some? && id in next.value.pollers
            && var q := next.value.pollers[id];
               || Served(q, false)
               || (Awake(next.value, q) && Remaining(next.value, q) < Remaining(w, w.pollers[id]))
  {
    var p := w.pollers[id];
    if p.pc.Looping? {
      GetAdvances(w, id, p, p.pc.get);
    }
  }

  lemma GetAdvances(w: World, id: nat, p: Poller, g: GetPc)
    requires Awake(w, p) && p.pc == Looping(g)
    ensures var next := StepGet(w, id, p, g);
            && id in next.pollers
            && var q := next.pollers[id];
               || Served(q, false)
               || (Awake(next, q) && Remaining(next, q) < Remaining(w, p))
  {
  }

  /** A finished request stays finished, and a row that is gone stays gone. */
  lemma OverStays(w: World, a: Action, st: State)
    requires Step(w, a).Some? && Over(w, st)
    ensures Over(Step(w, a).value, st) && (st !in w.rows ==> st !in Step(w, a).value.rows)
  {
    match a
    case PollerStep(id) => PollerKeepsOver(w, id, w.pollers[id], st);
    case HandlerStep(id) => HandlerKeepsOver(w, id, w.handlers[id], st);
    case _ =>
  }

  lemma HandlerKeepsOver(w: World, id: nat, h: Handler, st: State)
    requires StepHandler(w, id, h).Some? && Over(w, st)
    ensures var next := StepHandler(w, id, h).value; Over(next, st) && (st !in w.rows ==> st !in next.rows)
  {
  }

  lemma PollerKeepsOver(w: World, id: nat, p: Poller, st: State)
    requires StepPoller(w, id, p).Some? && Over(w, st)
    ensures var next := StepPoller(w, id, p).value; Over(next, st) && (st !in w.rows ==> st !in next.rows)
  {
    match p.pc
    case Ownership(g) => GetKeepsOver(w, id, p, g, st);
    case Looping(g) => GetKeepsOver(w, id, p, g, st);
    case _ =>
  }

  lemma GetKeepsOver(w: World, id: nat, p: Poller, g: GetPc, st: State)
    requires Over(w, st)
    ensures var next := StepGet(w, id, p, g); Over(next, st) && (st !in w.rows ==> st !in next.rows)
  {
  }

  /** Nobody else takes the value or opens the channel again. */
  lemma NotificationStays(w: World, a: Action, id: nat)
    requires ChannelsHold(w.hub, w.made, w.pollers) && Step(w, a).Some?
    requires id in w.pollers && w.pollers[id].pc.Parked? && Notified(w.hub, w.pollers[id])
    requires a != PollerStep(id)
    ensures Notified(Step(w, a).value.hub, w.pollers[id])
  {
    var c := w.pollers[id].watch.value;
    match a
    case PollerStep(other) =>
      NotShared(w, other, id);
      OtherPollerLeavesChannel(w, other, w.pollers[other], c);
    case HandlerStep(other) => HandlerLeavesChannel(w, other, w.handlers[other], c);
    case _ =>
  }

  lemma HandlerLeavesChannel(w: World, id: nat, h: Handler, c: nat)
    requires Disciplined(w.hub) && StepHandler(w, id, h).Some?
    requires c in w.hub.chans && w.hub.chans[c] == ChanState(false, true)
    ensures var hub := StepHandler(w, id, h).value.hub; c in hub.chans && hub.chans[c] == w.hub.chans[c]
  {
    if h.pc.Notifying? {
      NotifyLeavesClosed(w.hub, h.st, c);
    }
  }

  lemma NotifyLeavesClosed(hub: Hub<nat>, st: State, c: nat)
    requires Disciplined(hub) && c in hub.chans && hub.chans[c] == ChanState(false, true)
    ensures c in Notify(hub, st).chans && Notify(hub, st).chans[c] == hub.chans[c]
  {
  }

  lemma NotShared(w: World, other: nat, id: nat)
    requires ChannelsHold(w.hub, w.made, w.pollers) && other in w.pollers && id in w.pollers && other != id
    ensures !SameWatch(w.pollers[other], w.pollers[id])
  {
  }

  lemma OtherPollerLeavesChannel(w: World, id: nat, p: Poller, c: nat)
    requires Disciplined(w.hub) && StepPoller(w, id, p).Some? && !(p.pc.Parked? && p.watch == Some(c))
    requires c < w.made && c in w.hub.chans && w.hub.chans[c] == ChanState(false, true)
    ensures var hub := StepPoller(w, id, p).value.hub; c in hub.chans && hub.chans[c] == ChanState(false, true)
  {
    match p.pc
    case Ownership(g) => GetMovesItsPoller(w, id, p, g);
    case Looping(g) => GetMovesItsPoller(w, id, p, g);
    case Leaving =>
      if p.watch.Some? {
        UnsubscribeLeavesClosed(w.hub, p, c);
      }
    case Subscribing => SubscribeLeavesClosed(w.hub, p.st, w.made, c);
    case _ =>
  }

  lemma UnsubscribeLeavesClosed(hub: Hub<nat>, p: Poller, c: nat)
    requires Disciplined(hub) && c in hub.chans && hub.chans[c] == ChanState(false, true) && p.watch.Some?
    ensures var next := Unsubscribe(hub, p.st, p.watch.value); c in next.chans && next.chans[c] == hub.chans[c]
  {
  }

  lemma SubscribeLeavesClosed(hub: Hub<nat>, st: State, made: nat, c: nat)
    requires Disciplined(hub) && c in hub.chans && hub.chans[c] == ChanState(false, true) && c != made
    ensures var next := Subscribe(hub, st, made); c in next.chans && next.chans[c] == hub.chans[c]
  {
  }

  /** Only its own steps, its client and the database move a poller. */
  lemma OthersLeavePoller(w: World, a: Action, id: nat)
    requires id in w.pollers && Step(w, a).Some? && a != PollerStep(id) && !Spoils(a, id)
    ensures id in Step(w, a).value.pollers && Step(w, a).value.pollers[id] == w.pollers[id]
  {
    match a
    case PollerStep(other) => OtherLeavesPoller(w, other, w.pollers[other], id);
    case HandlerStep(other) => HandlerLeavesPoller(w, other, w.handlers[other], id);
    case _ =>
  }

  lemma OtherLeavesPoller(w: World, other: nat, p: Poller, id: nat)
    requires id in w.pollers && other != id && StepPoller(w, other, p).Some?
    ensures var next := StepPoller(w, other, p).value; id in next.pollers && next.pollers[id] == w.pollers[id]
  {
    match p.pc
    case Ownership(g) => GetMovesItsPoller(w, other, p, g);
    case Looping(g) => GetMovesItsPoller(w, other, p, g);
    case _ =>
  }

  lemma HandlerLeavesPoller(w: World, other: nat, h: Handler, id: nat)
    requires id in w.pollers && StepHandler(w, other, h).Some?
    ensures StepHandler(w, other, h).value.pollers == w.pollers
  {
  }

  lemma ServedStays(w: World, a: Action, id: nat, spoiled: bool)
    requires id in w.pollers && Served(w.pollers[id], spoiled) && Step(w, a).Some?
    ensures id in Step(w, a).value.pollers && Served(Step(w, a).value.pollers[id], spoiled)
  {
    if a != PollerStep(id) && !Spoils(a, id) {
      OthersLeavePoller(w, a, id);
    }
  }

  /** Somebody else's step leaves it as near as it was. */
  lemma OtherStepKeepsAwake(w: World, a: Action, id: nat)
    requires Inv(w) && Step(w, a).Some? && id in w.pollers && Awake(w, w.pollers[id])
    requires a != PollerStep(id) && !Spoils(a, id)
    ensures var next := Step(w, a).value;
            && id in next.pollers && next.pollers[id] == w.pollers[id] && Awake(next, w.pollers[id])
            && Remaining(next, w.pollers[id]) <= Remaining(w, w.pollers[id])
  {
    OthersLeavePoller(w, a, id);
    OverStays(w, a, w.pollers[id].st);
    if w.pollers[id].pc.Parked? {
      NotificationStays(w, a, id);
    }
  }

  lemma SpoiledIsServed(w: World, a: Action, id: nat)
    requires Step(w, a).Some? && id in w.pollers && Spoils(a, id)
    ensures id in Step(w, a).value.pollers && Served(Step(w, a).value.pollers[id], true)
  {
  }

  lemma StepAdvances(w: World, a: Action, id: nat)
    requires Inv(w) && Step(w, a).Some? && id in w.pollers && Awake(w, w.pollers[id])
    ensures var next := Step(w, a).value;
            && id in next.pollers
            && var q := next.pollers[id];
               || Served(q, Spoils(a, id))
               || (&& Awake(next, q)
                   && Remaining(next, q) + (if a == PollerStep(id) then 1 else 0) <= Remaining(w, w.pollers[id]))
  {
    if a == PollerStep(id) {
      OwnStepAdvances(w, id);
    } else if Spoils(a, id) {
      SpoiledIsServed(w, a, id);
    } else {
      OtherStepKeepsAwake(w, a, id);
    }
  }

  // ---------------------------------------------------------------------------
  // Any interleaving
  // ---------------------------------------------------------------------------

  function OwnSteps(run: seq<Action>, id: nat): nat {
    if run == [] then 0
    else OwnSteps(run[..|run| - 1], id) + if run[|run| - 1] == PollerStep(id) then 1 else 0
  }

  predicate Spoiled(run: seq<Action>, id: nat) {
    exists i :: 0 <= i < |run| && Spoils(run[i], id)
  }

  /** The claim at the end of `run`: it answered, or it can still move and gets nearer by each step. */
  ghost predicate OnItsWay(w: World, run: seq<Action>, id: nat, end: World)
    requires id in w.pollers && Awake(w, w.pollers[id])
  {
    && id in end.pollers
    && (|| Served(end.pollers[id], Spoiled(run, id))
        || (&& Awake(end, end.pollers[id])
            && Step(end, PollerStep(id)).Some?
            && OwnSteps(run, id) + Remaining(end, end.pollers[id]) <= Remaining(w, w.pollers[id])))
  }

  lemma {:induction false} AwakeStaysAwake(w: World, run: seq<Action>, id: nat)
    requires Reachable(w) && Exec(w, run).Some? && id in w.pollers && Awake(w, w.pollers[id])
    ensures OnItsWay(w, run, id, Exec(w, run).value)
    decreases |run|
  {
    if run == [] {
      OwnStepAdvances(w, id);
    } else {
      var before, a := run[..|run| - 1], run[|run| - 1];
      AwakeStaysAwake(w, before, id);
      var mid := Exec(w, before).value;
      ReachableOn(w, before);
      ReachableInv(mid);
      assert Spoiled(run, id) <==> Spoiled(before, id) || Spoils(a, id) by {
        assert forall i :: 0 <= i < |before| ==> before[i] == run[i];
      }
      if Served(mid.pollers[id], Spoiled(before, id)) {
        ServedStays(mid, a, id, Spoiled(before, id));
      } else {
        StepAdvances(mid, a, id);
      }
      var end := Exec(w, run).value;
      if Awake(end, end.pollers[id]) {
        OwnStepAdvances(end, id);
      }
    }
  }

  /** What is reachable from a reachable world is reachable. */
  lemma {:induction false} ReachableOn(w: World, run: seq<Action>)
    requires Reachable(w) && Exec(w, run).Some?
    ensures Reachable(Exec(w, run).value)
    decreases |run|
  {
    if run != [] {
      var before := run[..|run| - 1];
      ReachableOn(w, before);
      var so :| Exec(START, so) == Exec(w, before);
      var _ := Extend(START, Exec(w, before).value, so, run[|run| - 1]);
    }
  }

  /** A blocked poller whose owed notification is sent is on its way. */
  lemma NotificationWakes(w: World, id: nat, hid: nat)
    requires Reachable(w) && id in w.pollers && Blocked(w.hub, w.pollers[id])
    requires hid in w.handlers && w.handlers[hid].pc.Notifying? && w.handlers[hid].st == w.pollers[id].st
    ensures var next := Step(w, HandlerStep(hid));
            next.Some? && next.value.pollers == w.pollers && Awake(next.value, w.pollers[id])
  {
    NotificationArrives(w, id, hid);
    ReachableInv(w);
    ParkedIsUnanswered(w, id);
  }

  lemma ParkedIsUnanswered(w: World, id: nat)
    requires Inv(w) && id in w.pollers && w.pollers[id].pc.Parked?
    ensures w.pollers[id].response.None? && w.pollers[id].st in w.born
  {
    assert AnswerHolds(w.history, id, w.pollers[id]) && WakeupHolds(w, w.pollers[id]);
  }

  /** Once the owed notification is sent, then after any run of the whole system the poller has
      answered or its next step is possible, and after four steps of its own it has answered: with
      the request's outcome, unless its client left or the database failed. */
  lemma NotifiedPollerGetsThrough(w: World, id: nat, hid: nat, run: seq<Action>)
    requires Reachable(w) && id in w.pollers && Blocked(w.hub, w.pollers[id])
    requires hid in w.handlers && w.handlers[hid].pc.Notifying? && w.handlers[hid].st == w.pollers[id].st
    requires Exec(w, [HandlerStep(hid)] + run).Some?
    ensures var end := Exec(w, [HandlerStep(hid)] + run).value;
            && id in end.pollers
            && (Served(end.pollers[id], Spoiled(run, id)) || Step(end, PollerStep(id)).Some?)
            && (OwnSteps(run, id) >= 4 ==> Served(end.pollers[id], Spoiled(run, id)))
  {
    NotificationWakes(w, id, hid);
    var next := Step(w, HandlerStep(hid)).value;
    ExecFirst(w, HandlerStep(hid), run);
    assert Exec(w, [HandlerStep(hid)]) == Some(next);
    ReachableOn(w, [HandlerStep(hid)]);
    AwakeStaysAwake(next, run, id);
  }

  lemma {:induction false} ExecFirst(w: World, a: Action, run: seq<Action>)
    requires Step(w, a).Some?
    ensures Exec(w, [a] + run) == Exec(Step(w, a).value, run)
    decreases |run|
  {
    if run == [] {
      assert [a] + run == [a] && [a][..0] == [];
    } else {
      ExecFirst(w, a, run[..|run| - 1]);
      assert ([a] + run)[..|run|] == [a] + run[..|run| - 1];
    }
  }
}
