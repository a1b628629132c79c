/** Whole-run properties of the long-poll state machine. */
module LongPollTheorems {
  import opened Prelude
  import opened Requests
  import opened Notifications
  import opened LongPoll
  import opened LongPollSafety

  lemma {:induction false} InvHolds(run: seq<Action>)
    ensures Exec(START, run).Some? ==> Inv(Exec(START, run).value)
  {
    if run == [] {
      assert Inv(START);
    } else {
      var before := run[..|run| - 1];
      InvHolds(before);
      if Exec(START, run).Some? {
        var w := Exec(START, before).value;
        StoriesKept(w, run[|run| - 1]);
        ChannelsKept(w, run[|run| - 1]);
        WakeupsKept(w, run[|run| - 1]);
      }
    }
  }

  lemma ReachableInv(w: World)
    ensures Reachable(w) ==> Inv(w)
  {
    if Reachable(w) {
      var run :| Exec(START, run) == Some(w);
      InvHolds(run);
    }
  }

  // ---------------------------------------------------------------------------
  // No lost wakeup, and exactly when one is lost
  // ---------------------------------------------------------------------------

  /** A poller blocked on a request that is finished or gone is still owed its notification
      exactly when the request did not leave `pending` on a silent path. */
  lemma NoLostWakeup(w: World, id: nat)
    requires Reachable(w) && id in w.pollers && Blocked(w.hub, w.pollers[id])
    requires !IsPending(w, w.pollers[id].st)
    ensures Owed(w.handlers, w.pollers[id].st) <==> w.pollers[id].st !in w.silent
  {
    ReachableInv(w);
    assert WakeupHolds(w, w.pollers[id]);
  }

  /** With every handler finished and no silent path taken, nobody waits for a finished request. */
  lemma QuietWorldStrandsNobody(run: seq<Action>)
    requires Exec(START, run).Some?
    ensures var w := Exec(START, run).value;
            w.silent == {} && (forall h :: h in w.handlers ==> w.handlers[h].pc.Finished?) ==>
              forall id :: id in w.pollers && Blocked(w.hub, w.pollers[id]) ==> IsPending(w, w.pollers[id].st)
  {
    InvHolds(run);
    var w := Exec(START, run).value;
    assert forall id :: id in w.pollers ==> WakeupHolds(w, w.pollers[id]);
  }

  /** Extending a run by one action. */
  lemma Extend(from: World, w: World, run: seq<Action>, a: Action) returns (w': World)
    requires Exec(from, run) == Some(w) && Step(w, a).Some?
    ensures w' == Step(w, a).value && Exec(from, run + [a]) == Some(w')
  {
    w' := Step(w, a).value;
    assert (run + [a])[..|run + [a]| - 1] == run;
  }

  function Answer(rows: Table, st: State): Response {
    if st !in rows then Gone
    else if rows[st].status.Completed? then Done(rows[st].result)
    else Failed
  }

  /** The row is gone, and if there was one the history says this poller took it. */
  predicate Taken(w: World, end: World, id: nat, st: State) {
    && end.rows == w.rows - {st}
    && (st in w.rows && st in w.history ==>
          end.history == w.history[st := w.history[st] + [Collected(id, w.rows[st].status, w.rows[st].result)]])
  }

  /** A value in the channel is received. */
  lemma ReceiverReads(w: World, id: nat)
    requires id in w.pollers && w.pollers[id].pc.Parked? && w.pollers[id].watch.Some?
    requires w.pollers[id].watch.value in w.hub.chans && w.hub.chans[w.pollers[id].watch.value].full
    ensures var next := Step(w, PollerStep(id));
            && next.Some? && next.value.rows == w.rows && next.value.history == w.history
            && id in next.value.pollers && next.value.pollers[id] == w.pollers[id].(pc := Looping(Read))
  {
  }

  /** A finished row is collected next, and a row that is gone answers. */
  lemma ReaderMovesOn(w: World, id: nat)
    requires id in w.pollers && w.pollers[id].pc == Looping(Read) && !IsPending(w, w.pollers[id].st)
    ensures var p, next := w.pollers[id], Step(w, PollerStep(id));
            && next.Some? && next.value.rows == w.rows && next.value.history == w.history && id in next.value.pollers
            && next.value.pollers[id] ==
                 if p.st in w.rows then p.(pc := Collecting(w.rows[p.st].status.Completed?))
                 else p.(pc := Leaving, response := Some(Gone))
  {
  }

  /** The step that collects, or finds nothing left, takes the row it answers with. */
  lemma CollectorTakes(w: World, id: nat)
    requires id in w.pollers && !IsPending(w, w.pollers[id].st)
    requires var p := w.pollers[id];
             if p.st in w.rows then p.pc == Collecting(w.rows[p.st].status.Completed?)
             else p.pc.Leaving? && p.response == Some(Gone)
    ensures var st, next := w.pollers[id].st, Step(w, PollerStep(id));
            && next.Some? && Taken(w, next.value, id, st)
            && id in next.value.pollers && next.value.pollers[id].response == Some(Answer(w.rows, st))
  {
    var st := w.pollers[id].st;
    if st in w.rows {
      var taken := Collected(id, w.rows[st].status, w.rows[st].result);
      assert [] + [taken] == [taken];
    } else {
      assert w.rows - {st} == w.rows;
    }
  }

  /** With a value in its channel and its row no longer pending, a parked poller answers in
      three steps with what the row holds, and takes the row. */
  lemma NotifiedPollerAnswers(start: World, w: World, run: seq<Action>, id: nat) returns (end: World)
    requires Exec(start, run) == Some(w)
    requires id in w.pollers && w.pollers[id].pc.Parked? && w.pollers[id].watch.Some?
    requires w.pollers[id].watch.value in w.hub.chans && w.hub.chans[w.pollers[id].watch.value].full
    requires !IsPending(w, w.pollers[id].st)
    ensures Exec(start, run + [PollerStep(id)] + [PollerStep(id)] + [PollerStep(id)]) == Some(end)
    ensures id in end.pollers && end.pollers[id].response == Some(Answer(w.rows, w.pollers[id].st))
    ensures Taken(w, end, id, w.pollers[id].st)
  {
    ReceiverReads(w, id);
    var w1 := Extend(start, w, run, PollerStep(id));
    ReaderMovesOn(w1, id);
    var w2 := Extend(start, w1, run + [PollerStep(id)], PollerStep(id));
    CollectorTakes(w2, id);
    end := Extend(start, w2, run + [PollerStep(id)] + [PollerStep(id)], PollerStep(id));
  }

  /** Sending the owed notification fills and closes the blocked poller's channel and changes no row. */
  lemma NotificationArrives(w: World, id: nat, hid: nat)
    requires Reachable(w) && id in w.pollers && Blocked(w.hub, w.pollers[id])
    requires hid in w.handlers && w.handlers[hid].pc.Notifying? && w.handlers[hid].st == w.pollers[id].st
    ensures var next := Step(w, HandlerStep(hid));
            && next.Some? && next.value.rows == w.rows && next.value.pollers == w.pollers
            && w.pollers[id].watch.value in next.value.hub.chans
            && next.value.hub.chans[w.pollers[id].watch.value] == ChanState(false, true)
            && next.value.born == w.born
            && !IsPending(w, w.pollers[id].st)
  {
    ReachableInv(w);
    BlockedIsRegistered(w, id);
    NotifyIsDisciplined(w.hub, w.pollers[id].st);
  }

  /** The owed notification is enough: once it is sent, three steps of the poller answer it
      with what the row held. */
  lemma WakeupDelivers(w: World, id: nat, hid: nat) returns (end: World)
    requires Reachable(w) && id in w.pollers && Blocked(w.hub, w.pollers[id])
    requires hid in w.handlers && w.handlers[hid].pc.Notifying? && w.handlers[hid].st == w.pollers[id].st
    ensures Exec(w, [HandlerStep(hid)] + [PollerStep(id)] + [PollerStep(id)] + [PollerStep(id)]) == Some(end)
    ensures id in end.pollers && end.pollers[id].response == Some(Answer(w.rows, w.pollers[id].st))
  {
    NotificationArrives(w, id, hid);
    var w1 := Extend(w, w, [], HandlerStep(hid));
    assert [] + [HandlerStep(hid)] == [HandlerStep(hid)];
    end := NotifiedPollerAnswers(w, w1, [HandlerStep(hid)], id);
  }

  lemma SubscribedPoller() returns (w: World, run: seq<Action>)
    ensures Exec(START, run) == Some(w)
    ensures w == START.(
                   rows := map["s" := Row(Pending, "u", "", 0, 10, 0, None)],
                   born := map["s" := Birth("u", 10)],
                   history := map["s" := []],
                   pollers := map[0 := Poller("s", "u", Subscribing, None, None)])
  {
    run := [];
    w := Extend(START, START, run, Create("s", "u", "", 10));
    run := run + [Create("s", "u", "", 10)];
    w := Extend(START, w, run, Poll(0, "s", "u"));
    run := run + [Poll(0, "s", "u")];
    w := Extend(START, w, run, PollerStep(0));
    run := run + [PollerStep(0)];
  }

  /** A parked poller on a pending request "s" that is past its deadline. */
  lemma ParkedPastDeadline() returns (w: World, run: seq<Action>)
    ensures Exec(START, run) == Some(w)
    ensures w == START.(
                   now := 12 * NANOS,
                   rows := map["s" := Row(Pending, "u", "", 0, 10, 0, None)],
                   born := map["s" := Birth("u", 10)],
                   history := map["s" := []],
                   hub := Hub(map["s" := 0], map[0 := ChanState(true, false)], false),
                   made := 1,
                   pollers := map[0 := Poller("s", "u", Parked, Some(0), None)])
  {
    w, run := SubscribedPoller();
    w := Extend(START, w, run, PollerStep(0));
    run := run + [PollerStep(0)];
    w := Extend(START, w, run, PollerStep(0));
    run := run + [PollerStep(0)];
    w := Extend(START, w, run, Tick(12 * NANOS));
    run := run + [Tick(12 * NANOS)];
  }

  /** Lazy expiry strands a poller: the row is expired, no handler will ever notify, and the
      poller stays blocked. */
  lemma LazyExpiryStrands()
    ensures exists w, id ::
              && Reachable(w) && id in w.pollers && Blocked(w.hub, w.pollers[id])
              && w.pollers[id].st in w.rows && w.rows[w.pollers[id].st].status.Expired?
              && w.handlers == map[]
  {
    var w, run := ParkedPastDeadline();
    w := Extend(START, w, run, LazyExpire("s"));
    run := run + [LazyExpire("s")];
    assert Reachable(w);
    assert Blocked(w.hub, w.pollers[0]);
  }

  /** A `Dequeue` error strands a poller of a canceled request the same way. */
  lemma DequeueErrorStrands()
    ensures exists w, id ::
              && Reachable(w) && id in w.pollers && Blocked(w.hub, w.pollers[id])
              && w.pollers[id].st in w.rows && w.rows[w.pollers[id].st].status.Canceled?
              && forall h :: h in w.handlers ==> w.handlers[h].pc.Finished?
  {
    var w, run := ParkedPastDeadline();
    w := Extend(START, w, run, Handle(0, Cancellation, "s", "u"));
    run := run + [Handle(0, Cancellation, "s", "u")];
    w := Extend(START, w, run, HandlerStep(0));
    run := run + [HandlerStep(0)];
    w := Extend(START, w, run, HandlerError(0));
    run := run + [HandlerError(0)];
    assert Reachable(w);
    assert Blocked(w.hub, w.pollers[0]);
  }

  // ---------------------------------------------------------------------------
  // Exactly one outcome
  // ---------------------------------------------------------------------------

  /** Per request: it leaves `pending` at most once, at most one poller takes its row, its
      confirm and cancel audit records total at most one, and each agrees with how it left.
      A completion is the owner's, no later than the deadline, and what the poller received
      is the envelope that completion stored. */
  lemma ExactlyOneOutcome(w: World, st: State, i: nat, j: nat)
    requires Reachable(w) && st in w.history && i < |w.history[st]| && j < |w.history[st]|
    ensures st in w.born
    ensures var h := w.history[st];
            && (h[i].Left? && h[j].Left? ==> i == j)
            && (h[i].Audited? && h[j].Audited? ==> i == j)
            && (h[i].Collected? && h[j].Collected? ==> i == j)
            && (h[i].Audited? && h[j].Left? ==> h[i].action == h[j].status && h[j].actor == Some(h[i].user))
            && (h[i].Collected? && h[j].Left? ==> h[i].status == h[j].status && h[i].result == h[j].result && j < i)
            && (h[i].Left? && !h[i].status.Expired? ==> h[i].actor == Some(w.born[st].owner))
            && (h[i].Left? && h[i].status.Completed? ==> Unix(h[i].at) <= w.born[st].expiresAt && h[i].result.Some?)
            && (h[i].Left? && h[i].status.Expired? ==> w.born[st].expiresAt < Unix(h[i].at))
            && (exists k :: 0 <= k < |h| && h[k].Left?)
  {
    ReachableInv(w);
    assert Story(w.history[st], w.born[st]);
    StoryShape(w.history[st], w.born[st]);
  }

  /** Every non-empty story is an exit, an audit record exactly when a user caused it, and
      perhaps a collection, in that order. */
  lemma StoryShape(h: seq<Event>, b: Birth)
    requires Story(h, b) && h != []
    ensures h[0].Left? && 1 <= |h| <= 3
    ensures forall k :: 0 < k < |h| ==> !h[k].Left?
    ensures forall k :: 0 <= k < |h| && h[k].Audited? ==>
              k == 1 && h[1] == Audited(h[0].status, b.owner) && !h[0].status.Expired?
    ensures forall k :: 0 <= k < |h| && h[k].Collected? ==>
              k == |h| - 1 && 0 < k && h[k].status == h[0].status && h[k].result == h[0].result
    ensures !h[0].status.Expired? ==> h[0].actor == Some(b.owner)
    ensures h[0].status.Completed? ==> Unix(h[0].at) <= b.expiresAt && h[0].result.Some?
    ensures h[0].status.Expired? ==> b.expiresAt < Unix(h[0].at)
  {
    var exit := if ExitStory(h, b) then h else h[..|h| - 1];
    assert ExitStory(exit, b) && exit <= h && exit[0] == h[0];
    assert |exit| == 2 ==> exit[1] == h[1];
  }

  /** A stored row tells the same story as the history: pending with nothing recorded, or
      finished with the status and envelope of its one exit. */
  lemma RowsAgreeWithHistory(w: World, st: State)
    requires Reachable(w) && st in w.rows
    ensures st in w.born && w.rows[st].userId == w.born[st].owner
    ensures st in w.history && (w.rows[st].status.Pending? <==> w.history[st] == [])
    ensures !w.rows[st].status.Pending? ==>
              var exit := w.history[st][0];
              exit.Left? && exit.status == w.rows[st].status && exit.result == w.rows[st].result
  {
    ReachableInv(w);
    assert RowMatches(w.rows[st], w.history[st], w.born[st]);
  }

  predicate Answered(p: Poller) {
    p.response.Some? && (p.response.value.Done? || p.response.value.Failed?)
  }

  /** Across all polls of one request at most one caller is given its outcome, and an envelope
      handed out is the one stored by the completion. */
  lemma AtMostOneAnswer(w: World, a: nat, b: nat)
    requires Reachable(w) && a in w.pollers && b in w.pollers
    requires w.pollers[a].st == w.pollers[b].st && Answered(w.pollers[a])
    ensures Answered(w.pollers[b]) ==> a == b
    ensures w.pollers[a].st in w.history && w.pollers[a].st !in w.rows
    ensures var h := w.history[w.pollers[a].st];
            && h != [] && h[0].Left?
            && (w.pollers[a].response.value.Done? ==>
                  h[0].status.Completed? && h[0].result.Some? && w.pollers[a].response.value.result == h[0].result)
            && (w.pollers[a].response.value.Failed? ==> h[0].status in {Canceled, Expired})
  {
    ReachableInv(w);
    var st := w.pollers[a].st;
    assert AnswerHolds(w.history, a, w.pollers[a]) && AnswerHolds(w.history, b, w.pollers[b]);
    var h := w.history[st];
    assert Story(h, w.born[st]);
    assert h[..|h| - 1][0] == h[0];
    forall row
      ensures !RowMatches(row, h, w.born[st])
    {
      CollectedRowIsGone(row, h, w.born[st]);
    }
  }

  lemma CollectedRowIsGone(row: Row, h: seq<Event>, b: Birth)
    requires IsCollected(h)
    ensures !RowMatches(row, h, b)
  {
  }

  /** What has been recorded is never rewritten: an earlier history is a prefix of every later one. */
  lemma {:induction false} HistoriesOnlyGrow(run: seq<Action>, k: nat, st: State)
    requires k <= |run| && Exec(START, run).Some?
    ensures Exec(START, run[..k]).Some?
    ensures st in Exec(START, run[..k]).value.history ==>
              && st in Exec(START, run).value.history
              && Exec(START, run[..k]).value.history[st] <= Exec(START, run).value.history[st]
  {
    if k == |run| {
      assert run[..k] == run;
    } else {
      var before := run[..|run| - 1];
      HistoriesOnlyGrow(before, k, st);
      assert before[..k] == run[..k];
      InvHolds(before);
      var w := Exec(START, before).value;
      if st in w.history {
        StepGrowsHistory(w, run[|run| - 1], st);
      }
    }
  }

  lemma StepGrowsHistory(w: World, a: Action, st: State)
    requires Step(w, a).Some? && w.history.Keys == w.born.Keys && st in w.history
    ensures st in Step(w, a).value.history && w.history[st] <= Step(w, a).value.history[st]
  {
    match a
    case PollerStep(id) => PollerGrowsHistory(w, id, w.pollers[id], st);
    case HandlerStep(id) => HandlerGrowsHistory(w, id, w.handlers[id], st);
    case PollerDbError(id) =>
    case HandlerError(id) =>
    case _ =>
  }

  lemma HandlerGrowsHistory(w: World, id: nat, h: Handler, st: State)
    requires StepHandler(w, id, h).Some? && st in w.history
    ensures st in StepHandler(w, id, h).value.history && w.history[st] <= StepHandler(w, id, h).value.history[st]
  {
  }

  lemma PollerGrowsHistory(w: World, id: nat, p: Poller, st: State)
    requires StepPoller(w, id, p).Some? && st in w.history
    ensures st in StepPoller(w, id, p).value.history && w.history[st] <= StepPoller(w, id, p).value.history[st]
  {
    match p.pc
    case Ownership(g) => GetGrowsHistory(w, id, p, g, st);
    case Looping(g) => GetGrowsHistory(w, id, p, g, st);
    case _ =>
  }

  lemma GetGrowsHistory(w: World, id: nat, p: Poller, g: GetPc, st: State)
    requires st in w.history
    ensures st in StepGet(w, id, p, g).history && w.history[st] <= StepGet(w, id, p, g).history[st]
  {
  }

  // ---------------------------------------------------------------------------
  // Channel discipline
  // ---------------------------------------------------------------------------

  ghost predicate BothOwn(w: World, a: nat, b: nat, st: State)
    requires a in w.pollers && b in w.pollers && st in w.hub.subs
  {
    OwnsWatch(w.pollers[a], st, w.hub.subs[st]) && OwnsWatch(w.pollers[b], st, w.hub.subs[st])
  }

  /** Nothing ever panics, so no channel is closed twice or sent on after closing; each
      registered channel is open, empty and owned by exactly one live poller of its request. */
  lemma ChannelDiscipline(run: seq<Action>, st: State)
    requires Exec(START, run).Some?
    ensures var w := Exec(START, run).value;
            && !w.hub.panicked
            && (st in w.hub.subs ==>
                  && w.hub.subs[st] in w.hub.chans && w.hub.chans[w.hub.subs[st]] == ChanState(true, false)
                  && (exists id :: id in w.pollers && OwnsWatch(w.pollers[id], st, w.hub.subs[st]))
                  && (forall a, b :: a in w.pollers && b in w.pollers && BothOwn(w, a, b, st) ==> a == b))
  {
    InvHolds(run);
    var w := Exec(START, run).value;
    if st in w.hub.subs {
      assert HasOwner(w.pollers, st, w.hub.subs[st]);
      forall a, b | a in w.pollers && b in w.pollers && BothOwn(w, a, b, st)
        ensures a == b
      {
        assert SameWatch(w.pollers[a], w.pollers[b]);
      }
    }
  }

  /** Once every poller has returned nobody is left registered. */
  lemma ReturnedPollersLeaveNothing(run: seq<Action>)
    requires Exec(START, run).Some?
    ensures var w := Exec(START, run).value;
            (forall id :: id in w.pollers ==> w.pollers[id].pc.Returned?) ==>
              w.hub.subs == map[] && forall c :: c in w.hub.chans ==> !w.hub.chans[c].open
  {
    InvHolds(run);
    var w := Exec(START, run).value;
    assert forall st :: st in w.hub.subs ==> HasOwner(w.pollers, st, w.hub.subs[st]);
  }

  /** A poller whose channel is already closed (evicted or notified) cleans up without
      touching the channel of whoever registered after it. */
  lemma EvictedCleanupIsHarmless(w: World, id: nat)
    requires Reachable(w) && id in w.pollers && w.pollers[id].pc.Leaving?
    ensures w.pollers[id].watch.Some? && w.pollers[id].watch.value in w.hub.chans
    ensures !w.hub.chans[w.pollers[id].watch.value].open ==> StepLeave(w, id, w.pollers[id]).hub == w.hub
    ensures w.hub.chans[w.pollers[id].watch.value].open ==>
              StepLeave(w, id, w.pollers[id]).hub.subs == w.hub.subs - {w.pollers[id].st}
  {
    ReachableInv(w);
    assert WatchHolds(w.pollers[id], w.made);
    var c := w.pollers[id].watch.value;
    if w.hub.chans[c].open {
      var st :| st in w.hub.subs && w.hub.subs[st] == c;
      assert HasOwner(w.pollers, st, c);
      var owner :| owner in w.pollers && OwnsWatch(w.pollers[owner], st, c);
      assert SameWatch(w.pollers[owner], w.pollers[id]);
    }
  }
}
