/** Whom a poll answers, and what it answers from one end to the other. */
module LongPollOutcomes {
  import opened Prelude
  import opened Requests
  import opened Notifications
  import opened LongPoll
  import opened LongPollSafety
  import opened LongPollTheorems
  import LongPollProgress

  // ---------------------------------------------------------------------------
  // Only the owner's polls get past the ownership read
  // ---------------------------------------------------------------------------

  predicate Owns(born: map<State, Birth>, p: Poller) {
    p.st in born && born[p.st].owner == p.user
  }

  /** An answer that tells something about the request. */
  predicate Telling(r: Response) {
    r.Done? || r.Failed? || r.Gone? || r.StillPending?
  }

  /** It made a channel, is past the ownership read, or was told something. */
  predicate Admitted(p: Poller) {
    p.watch.Some? || !(p.pc.Ownership? || p.pc.Returned?) || (p.response.Some? && Telling(p.response.value))
  }

  predicate AccessHolds(born: map<State, Birth>, p: Poller) {
    && (Admitted(p) ==> Owns(born, p))
    && (p.pc.Ownership? ==> p.watch.None? && p.response.None?)
    && (p.pc.Leaving? || p.pc.Returned? ==> p.response.Some?)
    && (p.response == Some(NotFound) ==> p.pc.Returned? && p.watch.None?)
  }

  ghost predicate Access(w: World) {
    forall id :: id in w.pollers ==> AccessHolds(w.born, w.pollers[id])
  }

  lemma NextKeepsAccess(born: map<State, Birth>, p: Poller, rec: Option<Row>)
    requires AccessHolds(born, p) && (p.pc.Ownership? || p.pc.Looping?) && p.response.None?
    requires rec.Some? ==> p.st in born && rec.value.userId == born[p.st].owner
    ensures AccessHolds(born, Next(p, rec))
  {
  }

  lemma GetKeepsAccess(w: World, id: nat, p: Poller, g: GetPc)
    requires Stories(w) && Access(w) && id in w.pollers && w.pollers[id] == p
    requires p.pc == Ownership(g) || p.pc == Looping(g)
    ensures Access(StepGet(w, id, p, g))
  {
    assert AccessHolds(w.born, p) && AnswerHolds(w.history, id, p);
    var rec := if g.Expire? then MarkExpired(w.rows, p.st, w.now).row else Find(w.rows, p.st);
    if p.st in w.rows {
      assert RowMatches(w.rows[p.st], w.history[p.st], w.born[p.st]);
    }
    NextKeepsAccess(w.born, p, rec);
  }

  lemma CollectKeepsAccess(w: World, id: nat, p: Poller)
    requires Access(w) && AccessHolds(w.born, p) && p.pc.Collecting?
    ensures Access(StepCollect(w, id, p, p.pc.completed))
  {
  }

  lemma ReceiveKeepsAccess(w: World, id: nat, p: Poller)
    requires Access(w) && AccessHolds(w.born, p) && p.pc.Parked? && StepReceive(w, id, p).Some?
    ensures Access(StepReceive(w, id, p).value)
  {
  }

  lemma PollerKeepsAccess(w: World, id: nat, p: Poller)
    requires Stories(w) && Access(w) && id in w.pollers && w.pollers[id] == p
    requires StepPoller(w, id, p).Some?
    ensures Access(StepPoller(w, id, p).value)
  {
    assert AccessHolds(w.born, p);
    match p.pc
    case Ownership(g) => GetKeepsAccess(w, id, p, g);
    case Looping(g) => GetKeepsAccess(w, id, p, g);
    case Collecting(_) => CollectKeepsAccess(w, id, p);
    case Parked => ReceiveKeepsAccess(w, id, p);
    case _ =>
  }

  lemma AccessKept(w: World, a: Action)
    requires Inv(w) && Access(w) && Step(w, a).Some?
    ensures Access(Step(w, a).value)
  {
    match a
    case PollerStep(id) => PollerKeepsAccess(w, id, w.pollers[id]);
    case Disconnect(id) => QuitKeepsAccess(w, a, id);
    case PollerDbError(id) => QuitKeepsAccess(w, a, id);
    case HandlerStep(id) => HandlerKeepsAccess(w, id, w.handlers[id]);
    case _ =>
  }

  lemma QuitKeepsAccess(w: World, a: Action, id: nat)
    requires Access(w) && Step(w, a).Some? && (a == Disconnect(id) || a == PollerDbError(id))
    ensures Access(Step(w, a).value)
  {
    assert AccessHolds(w.born, w.pollers[id]);
  }

  lemma HandlerKeepsAccess(w: World, id: nat, h: Handler)
    requires Access(w) && StepHandler(w, id, h).Some?
    ensures Access(StepHandler(w, id, h).value)
  {
  }

  lemma {:induction false} AccessAlways(run: seq<Action>)
    requires Exec(START, run).Some?
    ensures Access(Exec(START, run).value)
  {
    if run != [] {
      var before := run[..|run| - 1];
      AccessAlways(before);
      InvHolds(before);
      AccessKept(Exec(START, before).value, run[|run| - 1]);
    }
  }

  lemma ReachableAccess(w: World, id: nat)
    requires Reachable(w) && id in w.pollers
    ensures AccessHolds(w.born, w.pollers[id])
  {
    var run :| Exec(START, run) == Some(w);
    AccessAlways(run);
  }

  /** Whoever holds a channel, or is told that a request is done, failed, gone or pending, is its
      owner. */
  lemma OnlyOwnersAreTold(w: World, id: nat)
    requires Reachable(w) && id in w.pollers
    requires w.pollers[id].watch.Some? || (w.pollers[id].response.Some? && Telling(w.pollers[id].response.value))
    ensures w.pollers[id].st in w.born && w.born[w.pollers[id].st].owner == w.pollers[id].user
  {
    ReachableAccess(w, id);
  }

  /** A poll for a request that is somebody else's, or was never made, makes no channel and returns
      with "not found", unless the database fails. */
  lemma StrangersAreTurnedAway(w: World, id: nat)
    requires Reachable(w) && id in w.pollers
    requires w.pollers[id].st in w.born ==> w.born[w.pollers[id].st].owner != w.pollers[id].user
    ensures w.pollers[id].watch.None? && (w.pollers[id].pc.Ownership? || w.pollers[id].pc.Returned?)
    ensures w.pollers[id].pc.Returned? ==> w.pollers[id].response in {Some(NotFound), Some(ServerError)}
    ensures w.pollers[id].pc.Ownership? ==> w.pollers[id].response.None?
  {
    ReachableAccess(w, id);
  }

  // ---------------------------------------------------------------------------
  // A handler's transaction
  // ---------------------------------------------------------------------------

  /** The request is pending, the handler's user owns it, and the deadline agrees with the kind. */
  predicate MayCommit(w: World, h: Handler) {
    && IsPending(w, h.st) && h.st in w.born
    && match h.kind
       case Confirm(_) => h.user == w.born[h.st].owner && w.now / NANOS <= w.born[h.st].expiresAt
       case Cancellation => h.user == w.born[h.st].owner
       case Expiry => w.born[h.st].expiresAt < w.now / NANOS
  }

  function Verdict(kind: HandlerKind): Status {
    match kind
    case Confirm(_) => Completed
    case Cancellation => Canceled
    case Expiry => Expired
  }

  function Sent(kind: HandlerKind): Option<Envelope> {
    match kind
    case Confirm(env) => Some(env)
    case _ => None
  }

  /** The exit, and the audit record of the user who caused it. */
  function Recorded(kind: HandlerKind, user: UserId, now: nat): seq<Event> {
    if kind.Expiry? then [Left(Expired, None, now, None)]
    else [Left(Verdict(kind), Some(user), now, Sent(kind)), Audited(Verdict(kind), user)]
  }

  /** A handler that may commit leaves the row finished with its envelope and its own story on
      record, and still owes the notification; any other handler changes nothing and is finished. */
  lemma HandlerCommitsIff(w: World, hid: nat)
    requires Reachable(w) && hid in w.handlers && w.handlers[hid].pc.Begin?
    ensures var h := w.handlers[hid];
            var next := Step(w, HandlerStep(hid));
            && next.Some?
            && if MayCommit(w, h) then
                 && h.st in w.rows
                 && next.value == w.(
                      rows := w.rows[h.st := w.rows[h.st].(
                        status := Verdict(h.kind), updatedAt := w.now / NANOS, result := Sent(h.kind))],
                      history := w.history[h.st := Recorded(h.kind, h.user, w.now)],
                      handlers := w.handlers[hid := h.(pc := if h.kind.Expiry? then Notifying else Dequeuing)])
               else next.value == w.(handlers := w.handlers[hid := h.(pc := Finished)])
  {
    ReachableInv(w);
    var h := w.handlers[hid];
    if h.st in w.rows {
      assert RowMatches(w.rows[h.st], w.history[h.st], w.born[h.st]);
      if MayCommit(w, h) {
        assert [] + Recorded(h.kind, h.user, w.now) == Recorded(h.kind, h.user, w.now);
      }
    }
  }

  // ---------------------------------------------------------------------------
  // From the confirmation to the answer
  // ---------------------------------------------------------------------------

  /** What a poll is told of a request that ended so. */
  function Told(kind: HandlerKind): Response {
    match kind
    case Confirm(env) => Done(Some(env))
    case _ => Failed
  }

  /** The handler's steps up to and with its notification. */
  function Notice(hid: nat, kind: HandlerKind): seq<Action> {
    if kind.Expiry? then [HandlerStep(hid)] + [HandlerStep(hid)]
    else [HandlerStep(hid)] + [HandlerStep(hid)] + [HandlerStep(hid)]
  }

  lemma ReachableNext(w: World, a: Action)
    requires Reachable(w) && Step(w, a).Some?
    ensures Reachable(Step(w, a).value) && Exec(w, [a]) == Some(Step(w, a).value)
  {
    assert [a][..0] == [];
    LongPollProgress.ReachableOn(w, [a]);
  }

  /** Committed and about to notify: the steps before the notification itself. */
  lemma AboutToNotify(w: World, hid: nat) returns (w': World, run: seq<Action>)
    requires Reachable(w) && hid in w.handlers && w.handlers[hid].pc.Begin? && MayCommit(w, w.handlers[hid])
    ensures run + [HandlerStep(hid)] == Notice(hid, w.handlers[hid].kind)
    ensures Exec(w, run) == Some(w') && Reachable(w')
    ensures w'.pollers == w.pollers && w'.hub == w.hub && hid in w'.handlers
    ensures w'.handlers[hid] == w.handlers[hid].(pc := Notifying)
    ensures var h := w.handlers[hid];
            && w'.rows.Keys == w.rows.Keys && w'.rows - {h.st} == w.rows - {h.st}
            && h.st in w'.rows && w'.rows[h.st].status == Verdict(h.kind) && w'.rows[h.st].result == Sent(h.kind)
            && w'.history == w.history[h.st := Recorded(h.kind, h.user, w.now)]
  {
    HandlerCommitsIff(w, hid);
    ReachableNext(w, HandlerStep(hid));
    w', run := Step(w, HandlerStep(hid)).value, [HandlerStep(hid)];
    if !w.handlers[hid].kind.Expiry? {
      ReachableNext(w', HandlerStep(hid));
      w' := Extend(w, w', run, HandlerStep(hid));
      run := run + [HandlerStep(hid)];
    }
  }

  /** A handler that may commit, its notification, and three steps of the poller blocked on the
      request: the poller answers with the confirmation's envelope, or that it failed; the row is
      gone, and the history is this exit, its audit record and this collection. */
  lemma OutcomeIsDelivered(w: World, id: nat, hid: nat) returns (end: World)
    requires Reachable(w) && id in w.pollers && Blocked(w.hub, w.pollers[id])
    requires hid in w.handlers && w.handlers[hid].pc.Begin? && w.handlers[hid].st == w.pollers[id].st
    requires MayCommit(w, w.handlers[hid])
    ensures var h := w.handlers[hid];
            && Exec(w, Notice(hid, h.kind) + [PollerStep(id)] + [PollerStep(id)] + [PollerStep(id)]) == Some(end)
            && id in end.pollers && end.pollers[id].response == Some(Told(h.kind))
            && end.rows == w.rows - {h.st}
            && end.history == w.history[
                 h.st := Recorded(h.kind, h.user, w.now) + [Collected(id, Verdict(h.kind), Sent(h.kind))]]
  {
    var kind := w.handlers[hid].kind;
    var w1, run := AboutToNotify(w, hid);
    NotificationArrives(w1, id, hid);
    var w2 := Extend(w, w1, run, HandlerStep(hid));
    assert w2.rows == w1.rows && w2.history == w1.history;
    end := NotifiedPollerAnswers(w, w2, Notice(hid, kind), id);
  }

  // ---------------------------------------------------------------------------
  // A poll from its beginning
  // ---------------------------------------------------------------------------

  /** The first two steps of the owner's poll: the ownership read and the subscription. */
  lemma OwnerSubscribes(w: World, id: nat, st: State, user: UserId) returns (w': World, run: seq<Action>)
    requires Reachable(w) && id !in w.pollers && st in w.rows && w.rows[st].userId == user
    requires w.rows[st].status.Pending? ==> !PastDeadline(w.rows[st], w.now)
    ensures run == [Poll(id, st, user)] + [PollerStep(id)] + [PollerStep(id)] && Exec(w, run) == Some(w')
    ensures w'.rows == w.rows && w'.history == w.history && w'.now == w.now
    ensures id in w'.pollers && w'.pollers[id] == Poller(st, user, Looping(Read), Some(w.made), None)
    ensures w.made in w'.hub.chans && w'.hub.chans[w.made] == ChanState(true, false)
    ensures st in w'.hub.subs && w'.hub.subs[st] == w.made
  {
    w' := Extend(w, w, [], Poll(id, st, user));
    run := [] + [Poll(id, st, user)];
    w' := Extend(w, w', run, PollerStep(id));
    run := run + [PollerStep(id)];
    w' := Extend(w, w', run, PollerStep(id));
    run := run + [PollerStep(id)];
  }

  /** The owner's poll of a finished request takes its row and is told the outcome at once. */
  lemma FinishedRequestIsServed(w: World, id: nat, st: State, user: UserId) returns (end: World)
    requires Reachable(w) && id !in w.pollers && st in w.rows && w.rows[st].userId == user
    requires !w.rows[st].status.Pending?
    ensures Exec(w, [Poll(id, st, user)] + [PollerStep(id)] + [PollerStep(id)] + [PollerStep(id)] + [PollerStep(id)])
              == Some(end)
    ensures id in end.pollers && Taken(w, end, id, st)
    ensures end.pollers[id].response ==
              Some(if w.rows[st].status.Completed? then Done(w.rows[st].result) else Failed)
  {
    var w1, run := OwnerSubscribes(w, id, st, user);
    ReaderMovesOn(w1, id);
    var w2 := Extend(w, w1, run, PollerStep(id));
    CollectorTakes(w2, id);
    end := Extend(w, w2, run + [PollerStep(id)], PollerStep(id));
  }

  /** The owner's poll of a request that is pending and not past its deadline parks on a channel of
      its own, registered for the request. */
  lemma PendingRequestIsAwaited(w: World, id: nat, st: State, user: UserId) returns (end: World)
    requires Reachable(w) && id !in w.pollers && st in w.rows && w.rows[st].userId == user
    requires w.rows[st].status.Pending? && !PastDeadline(w.rows[st], w.now)
    ensures Exec(w, [Poll(id, st, user)] + [PollerStep(id)] + [PollerStep(id)] + [PollerStep(id)]) == Some(end)
    ensures id in end.pollers && Blocked(end.hub, end.pollers[id]) && end.rows == w.rows
    ensures st in end.hub.subs && end.pollers[id].watch == Some(end.hub.subs[st])
  {
    var w1, run := OwnerSubscribes(w, id, st, user);
    end := Extend(w, w1, run, PollerStep(id));
  }

  /** The owner's poll of an overdue request expires it first, then subscribes, takes the row and is
      told that it failed. */
  lemma OverdueRequestFails(w: World, id: nat, st: State, user: UserId) returns (end: World)
    requires Reachable(w) && id !in w.pollers && st in w.rows && w.rows[st].userId == user
    requires w.rows[st].status.Pending? && w.rows[st].expiresAt < w.now / NANOS
    ensures Exec(w, [Poll(id, st, user)] + [PollerStep(id)] + [PollerStep(id)] + [PollerStep(id)] + [PollerStep(id)]
                      + [PollerStep(id)]) == Some(end)
    ensures id in end.pollers && end.pollers[id].response == Some(Failed) && end.rows == w.rows - {st}
    ensures end.history ==
              w.history[st := [Left(Expired, None, w.now, None)] + [Collected(id, Expired, None)]]
    ensures end.silent == w.silent + {st}
  {
    var w1 := ExpiredByPoll(w, id, st, user);
    var run := [Poll(id, st, user)] + [PollerStep(id)] + [PollerStep(id)];
    var w2 := Extend(w, w1, run, PollerStep(id));
    ReaderMovesOn(w2, id);
    var w3 := Extend(w, w2, run + [PollerStep(id)], PollerStep(id));
    CollectorTakes(w3, id);
    end := Extend(w, w3, run + [PollerStep(id)] + [PollerStep(id)], PollerStep(id));
  }

  /** The read finds it late, and the update expires it. */
  lemma ExpiredByPoll(w: World, id: nat, st: State, user: UserId) returns (w': World)
    requires Reachable(w) && id !in w.pollers && st in w.rows && w.rows[st].userId == user
    requires w.rows[st].status.Pending? && w.rows[st].expiresAt < w.now / NANOS
    ensures Exec(w, [Poll(id, st, user)] + [PollerStep(id)] + [PollerStep(id)]) == Some(w')
    ensures id in w'.pollers && w'.pollers[id] == Poller(st, user, Subscribing, None, None)
    ensures w'.rows == w.rows[st := w.rows[st].(status := Expired, updatedAt := w.now / NANOS)]
    ensures w'.rows[st].result.None? && w'.now == w.now
    ensures w'.history == w.history[st := [Left(Expired, None, w.now, None)]] && w'.silent == w.silent + {st}
  {
    ReachableInv(w);
    assert RowMatches(w.rows[st], w.history[st], w.born[st]);
    DeadlineTestsAgree(w.rows[st], w.now);
    w' := Extend(w, w, [], Poll(id, st, user));
    assert [] + [Poll(id, st, user)] == [Poll(id, st, user)];
    var run := [Poll(id, st, user)];
    w' := Extend(w, w', run, PollerStep(id));
    run := run + [PollerStep(id)];
    w' := Extend(w, w', run, PollerStep(id));
    assert [] + [Left(Expired, None, w.now, None)] == [Left(Expired, None, w.now, None)];
  }

  /** In the second that starts at the deadline the update matches nothing: the owner's poll reads
      again and goes on with the row as it is. */
  lemma LastSecondIsPending(w: World, id: nat, st: State, user: UserId) returns (end: World)
    requires Reachable(w) && id !in w.pollers && st in w.rows && w.rows[st].userId == user
    requires w.rows[st].status.Pending? && PastDeadline(w.rows[st], w.now) && w.rows[st].expiresAt == w.now / NANOS
    ensures Exec(w, [Poll(id, st, user)] + [PollerStep(id)] + [PollerStep(id)] + [PollerStep(id)]) == Some(end)
    ensures end == w.(pollers := w.pollers[id := Poller(st, user, Subscribing, None, None)])
  {
    end := Extend(w, w, [], Poll(id, st, user));
    assert [] + [Poll(id, st, user)] == [Poll(id, st, user)];
    var run := [Poll(id, st, user)];
    end := Extend(w, end, run, PollerStep(id));
    run := run + [PollerStep(id)];
    end := Extend(w, end, run, PollerStep(id));
    run := run + [PollerStep(id)];
    end := Extend(w, end, run, PollerStep(id));
  }

  // ---------------------------------------------------------------------------
  // Waiting
  // ---------------------------------------------------------------------------

  /** A parked poller can go on exactly when it is not blocked: with a value in its channel it takes
      that and reads again, and evicted without one it answers that the request is still pending. */
  lemma ParkedGoesOnIff(w: World, id: nat)
    requires Reachable(w) && id in w.pollers && w.pollers[id].pc.Parked?
    ensures w.pollers[id].watch.Some? && w.pollers[id].watch.value in w.hub.chans
    ensures var p, c, next := w.pollers[id], w.pollers[id].watch.value, Step(w, PollerStep(id));
            && (next.None? <==> Blocked(w.hub, p))
            && (w.hub.chans[c].full ==>
                  next == Some(w.(
                    hub := w.hub.(chans := w.hub.chans[c := ChanState(w.hub.chans[c].open, false)]),
                    pollers := w.pollers[id := p.(pc := Looping(Read))])))
            && (w.hub.chans[c] == ChanState(false, false) ==>
                  next == Some(w.(pollers := w.pollers[id := p.(pc := Leaving, response := Some(StillPending))])))
  {
    ReachableInv(w);
    assert WatchHolds(w.pollers[id], w.made);
  }

  /** A second poll of the owner evicts the first: its next step answers that the request is still
      pending. */
  lemma SecondPollEvicts(w: World, first: nat, second: nat) returns (end: World)
    requires Reachable(w) && first in w.pollers && Blocked(w.hub, w.pollers[first]) && second !in w.pollers
    requires var st := w.pollers[first].st; st in w.rows && !PastDeadline(w.rows[st], w.now)
    requires w.rows[w.pollers[first].st].userId == w.pollers[first].user
    ensures var p := w.pollers[first];
            Exec(w, [Poll(second, p.st, p.user)] + [PollerStep(second)] + [PollerStep(second)] + [PollerStep(first)])
              == Some(end)
    ensures first in end.pollers && end.pollers[first].response == Some(StillPending)
    ensures second in end.pollers && end.pollers[second].pc == Looping(Read)
  {
    ReachableInv(w);
    BlockedIsRegistered(w, first);
    var p := w.pollers[first];
    assert WatchHolds(p, w.made);
    var w1 := Evicts(w, first, second);
    end := Extend(w, w1, [Poll(second, p.st, p.user)] + [PollerStep(second)] + [PollerStep(second)], PollerStep(first));
  }

  lemma Evicts(w: World, first: nat, second: nat) returns (w': World)
    requires first in w.pollers && Blocked(w.hub, w.pollers[first]) && second !in w.pollers
    requires var p := w.pollers[first];
             && p.st in w.rows && !PastDeadline(w.rows[p.st], w.now) && w.rows[p.st].userId == p.user
             && p.watch.value < w.made && p.st in w.hub.subs && w.hub.subs[p.st] == p.watch.value
    ensures var p := w.pollers[first];
            && Exec(w, [Poll(second, p.st, p.user)] + [PollerStep(second)] + [PollerStep(second)]) == Some(w')
            && first in w'.pollers && w'.pollers[first] == p
            && second in w'.pollers && w'.pollers[second].pc == Looping(Read)
            && p.watch.value in w'.hub.chans && w'.hub.chans[p.watch.value] == ChanState(false, false)
  {
    var p := w.pollers[first];
    w' := Extend(w, w, [], Poll(second, p.st, p.user));
    assert [] + [Poll(second, p.st, p.user)] == [Poll(second, p.st, p.user)];
    var run := [Poll(second, p.st, p.user)];
    w' := Extend(w, w', run, PollerStep(second));
    run := run + [PollerStep(second)];
    w' := Extend(w, w', run, PollerStep(second));
  }

  /** The statement that collects would also expire an overdue row, on record and silently; a row that
      is pending and not overdue, or gone, makes the poller read again. In reachable worlds the row
      is finished or gone. */
  lemma CollectingTakesOrReads(w: World, id: nat)
    requires id in w.pollers && w.pollers[id].pc.Collecting?
    ensures var p, st, next := w.pollers[id], w.pollers[id].st, Step(w, PollerStep(id));
            && next.Some?
            && (st !in w.rows || (w.rows[st].status.Pending? && w.now / NANOS <= w.rows[st].expiresAt) ==>
                  next.value == w.(pollers := w.pollers[id := p.(pc := Looping(Read))]))
            && (st in w.rows && st in w.history && w.rows[st].status.Pending?
                  && w.rows[st].expiresAt < w.now / NANOS ==>
                    && next.value.rows == w.rows - {st} && next.value.silent == w.silent + {st}
                    && var exit := [Left(Expired, None, w.now, w.rows[st].result)];
                       var taken := [Collected(id, Expired, w.rows[st].result)];
                       next.value.history == w.history[st := w.history[st] + (exit + taken)])
    ensures Reachable(w) ==> !IsPending(w, w.pollers[id].st)
  {
    if Reachable(w) {
      ReachableInv(w);
      CollectingIsFinished(w, id, w.pollers[id]);
    }
  }

  // ---------------------------------------------------------------------------
  // Failures
  // ---------------------------------------------------------------------------

  /** The database can fail a poll in any of its statements, and the client can leave while it
      waits; only the poller changes, and a subscribed one still cleans up. */
  lemma PollerFailuresAreLocal(w: World, id: nat)
    requires id in w.pollers
    ensures var p := w.pollers[id];
            && Step(w, PollerDbError(id)) ==
                 (if p.pc.Ownership? then Some(GoPoller(w, id, p.(pc := Returned, response := Some(ServerError))))
                  else if p.pc.Looping? || p.pc.Collecting? then
                    Some(GoPoller(w, id, p.(pc := Leaving, response := Some(ServerError))))
                  else None)
            && Step(w, Disconnect(id)) ==
                 (if p.pc.Parked? then Some(GoPoller(w, id, p.(pc := Leaving, response := Some(StillPending))))
                  else None)
  {
  }

  /** A handler's transaction can fail and change nothing; a failing dequeue ends the handler without
      its notification, which is the second way for a request to fall silent. */
  lemma HandlerFailuresAreLocal(w: World, id: nat)
    requires id in w.handlers
    ensures var h, next := w.handlers[id], Step(w, HandlerError(id));
            && (next.Some? <==> h.pc in {Begin, Dequeuing})
            && (next.Some? ==>
                  && next.value.handlers == w.handlers[id := h.(pc := Finished)]
                  && next.value.rows == w.rows && next.value.history == w.history
                  && next.value.pollers == w.pollers && next.value.hub == w.hub
                  && next.value.silent == if h.pc == Dequeuing then w.silent + {h.st} else w.silent)
  {
  }
}
